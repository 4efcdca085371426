/** Sessions: login, refresh with rotation and replay detection, logout, password reset and password change,
  over three token stores. Each use case is one step; time passes between steps. */
module Sessions {
  import opened Options
  import opened TokenStores

  // Configured lifetimes, in seconds; they do not change during a run.
  datatype Config = Config(refreshTtl: int, accessTtl: int, resetTtl: int)
  {
    predicate Valid() { 0 < refreshTtl && 0 < accessTtl && 0 < resetTtl }
  }

  datatype Access = Access(jti: Token, user: UserId, exp: int)

  // `ServerError`: the stored text is not a user id, and converting it raises.
  datatype Answer = Pair(access: Access, refresh: Token) | Unauthorized | NotFound | Ok | ServerError

  datatype Stores = Stores(refresh: Store, revocations: Store, resets: Store)

  // ---------------------------------------------------------------------------------------------
  // The use cases on store contents. `jti` and `t` are the fresh ids a use case draws.

  function IssueAccess(c: Config, u: UserId, jti: Token, now: int): Access { Access(jti, u, now + c.accessTtl) }

  function LoginOn(c: Config, st: Stores, u: UserId, now: int, jti: Token, t: Token): Stores {
    st.(revocations := TrackAccess(st.revocations, u, jti, c.accessTtl, now),
        refresh := AddRefresh(st.refresh, u, t, c.refreshTtl, now))
  }

  function RevokeSessions(st: Stores, u: UserId, now: int): Stores {
    st.(refresh := RevokeAll(st.refresh, u, now), revocations := RevokeAllAccess(st.revocations, u, now))
  }

  // The writes of a refresh that has read `presented` as a live token of `u`.
  function RotateOn(c: Config, st: Stores, u: UserId, presented: Token, now: int, jti: Token, t: Token): Stores {
    st.(revocations := TrackAccess(st.revocations, u, jti, c.accessTtl, now),
        refresh := Rotate(st.refresh, presented, u, t, c.refreshTtl, now))
  }

  function RefreshOn(c: Config, st: Stores, users: set<UserId>, presented: Token, now: int, jti: Token, t: Token)
    : (Stores, Answer)
  {
    match Lookup(st.refresh, presented, now)
    case Some(Used(u)) => (RevokeSessions(st, u, now), Unauthorized)
    case Some(Owner(u)) =>
      if u !in users then (st, NotFound)
      else
        (RotateOn(c, st, u, presented, now, jti, t), Pair(IssueAccess(c, u, jti, now), t))
    case Some(Revoked) => (st, ServerError)
    case None => (st, Unauthorized)
  }

  function ConfirmResetOn(st: Stores, users: set<UserId>, presented: Token, now: int): (Stores, Answer) {
    var (resets, who) := Consume(st.resets, presented, now);
    var st1 := st.(resets := resets);
    match who
    case User(u) => if u in users then (RevokeSessions(st1, u, now), Ok) else (st1, NotFound)
    case Nobody => (st1, Unauthorized)
    case Raised => (st1, ServerError)
  }

  // ---------------------------------------------------------------------------------------------
  // The same use cases as programs

  class AuthUseCases {
    const tokens: TokenStore
    const revocations: TokenStore
    const resets: TokenStore
    const config: Config

    constructor (config: Config)
      ensures this.config == config
      ensures fresh(tokens) && fresh(revocations) && fresh(resets)
      ensures tokens != revocations && tokens != resets && revocations != resets
      ensures View() == Stores(EMPTY, EMPTY, EMPTY)
    {
      var a := new TokenStore();
      var b := new TokenStore();
      var c := new TokenStore();
      tokens, revocations, resets := a, b, c;
      this.config := config;
    }

    ghost predicate Separate() { tokens != revocations && tokens != resets && revocations != resets }

    ghost function View(): Stores
      reads tokens, revocations, resets
    {
      Stores(tokens.View(), revocations.View(), resets.View())
    }

    // After the password check has answered with user `u`.
    method Login(u: UserId, now: int, jti: Token, t: Token) returns (answer: Answer)
      requires Separate()
      modifies tokens, revocations
      ensures View() == LoginOn(config, old(View()), u, now, jti, t)
      ensures answer == Pair(IssueAccess(config, u, jti, now), t)
    {
      var access := IssueAccess(config, u, jti, now);
      revocations.TrackAccessToken(u, access.jti, config.accessTtl, now);
      var refresh := tokens.AddRefreshToken(u, config.refreshTtl, now, t);
      return Pair(access, refresh);
    }

    method RefreshToken(users: set<UserId>, presented: Token, now: int, jti: Token, t: Token) returns (answer: Answer)
      requires Separate()
      modifies tokens, revocations
      ensures (View(), answer) == RefreshOn(config, old(View()), users, presented, now, jti, t)
      ensures answer.Pair? <==>
        presented in old(tokens.keys) && now < old(tokens.keys)[presented].expiresAt
        && old(tokens.keys)[presented].value.Owner? && old(tokens.keys)[presented].value.user in users
    {
      var stored := tokens.Get(presented, now);
      if stored.None? { return Unauthorized; }
      if stored.value.Used? {
        tokens.RevokeAllForUser(stored.value.user, now);
        revocations.RevokeAllAccessTokensForUser(stored.value.user, now);
        return Unauthorized;
      }
      if stored.value.Revoked? { return ServerError; }
      var u := stored.value.user;
      if u !in users { return NotFound; }
      var access := IssueAccess(config, u, jti, now);
      revocations.TrackAccessToken(u, access.jti, config.accessTtl, now);
      var rotated := tokens.RotateRefreshToken(presented, u, config.refreshTtl, now, t);
      return Pair(access, rotated);
    }

    method ConfirmPasswordReset(users: set<UserId>, presented: Token, now: int) returns (answer: Answer)
      requires Separate()
      modifies tokens, revocations, resets
      ensures (View(), answer) == ConfirmResetOn(old(View()), users, presented, now)
      ensures answer == Ok <==>
        presented in old(resets.keys) && now < old(resets.keys)[presented].expiresAt
        && old(resets.keys)[presented].value.Owner? && old(resets.keys)[presented].value.user in users
      ensures answer == Unauthorized <==>
        presented !in old(resets.keys) || old(resets.keys)[presented].expiresAt <= now
        || old(resets.keys)[presented].value.Used?
    {
      var who := resets.ConsumePasswordResetToken(presented, now);
      if who.Nobody? { return Unauthorized; }
      if who.Raised? { return ServerError; }
      if who.id !in users { return NotFound; }
      tokens.RevokeAllForUser(who.id, now);
      revocations.RevokeAllAccessTokensForUser(who.id, now);
      return Ok;
    }
  }

  // ---------------------------------------------------------------------------------------------
  // Runs. `issued` and `access` remember, for the statements below, what was handed out.

  datatype State = State(
    now: int, stores: Stores, users: set<UserId>, next: nat,
    issued: map<Token, UserId>, access: map<Token, Access>, resetIssued: set<Token>)

  datatype Op =
    | Advance(seconds: nat)
    | AddUser(u: UserId)
    | DeleteUser(u: UserId)
    | Login(u: UserId)             // of a user who passed the password check
    | Refresh(t: Token)
    | Logout(t: Token, jti: Token)
    | RequestReset(u: UserId)
    | ConfirmReset(t: Token)
    | ChangePassword(u: UserId)

  // `get_current_user` lets the bearer of this token in.
  predicate Accepts(s: State, a: Access) {
    s.now < a.exp && !IsRevoked(s.stores.revocations, a.jti, s.now) && a.user in s.users
  }

  function Execute(c: Config, s: State, op: Op): (State, Answer) {
    match op
    case Advance(d) => (s.(now := s.now + d), Ok)
    case AddUser(u) => (s.(users := s.users + {u}), Ok)
    case DeleteUser(u) => (s.(users := s.users - {u}), Ok)
    case Login(u) =>
      if u !in s.users then (s, Unauthorized)
      else
        var a := IssueAccess(c, u, s.next, s.now);
        (s.(stores := LoginOn(c, s.stores, u, s.now, s.next, s.next + 1), next := s.next + 2,
            issued := s.issued[s.next + 1 := u], access := s.access[s.next := a]),
         Pair(a, s.next + 1))
    case Refresh(t) =>
      var (st, answer) := RefreshOn(c, s.stores, s.users, t, s.now, s.next, s.next + 1);
      if answer.Pair? then
        (s.(stores := st, next := s.next + 2,
            issued := s.issued[s.next + 1 := answer.access.user], access := s.access[s.next := answer.access]),
         answer)
      else (s.(stores := st), answer)
    case Logout(t, jti) =>
      if jti !in s.access || !Accepts(s, s.access[jti]) then (s, Unauthorized)
      else
        (s.(stores := s.stores.(refresh := DeleteKey(s.stores.refresh, t),
                                revocations := RevokeJti(s.stores.revocations, jti, None, s.now))), Ok)
    case RequestReset(u) =>
      if u !in s.users then (s, Ok)
      else
        (s.(stores := s.stores.(resets := SetKey(s.stores.resets, s.next, Owner(u), c.resetTtl, s.now)),
            next := s.next + 1, resetIssued := s.resetIssued + {s.next}), Ok)
    case ConfirmReset(t) =>
      var (st, answer) := ConfirmResetOn(s.stores, s.users, t, s.now);
      (s.(stores := st), answer)
    case ChangePassword(u) =>
      if u !in s.users then (s, NotFound)
      else (s.(stores := s.stores.(refresh := RevokeAll(s.stores.refresh, u, s.now))), Ok)
  }

  function Run(c: Config, s: State, ops: seq<Op>): State
    decreases |ops|
  {
    if ops == [] then s else Run(c, Execute(c, s, ops[0]).0, ops[1..])
  }

  predicate Initial(s: State) {
    s.stores == Stores(EMPTY, EMPTY, EMPTY) && s.issued == map[] && s.access == map[] && s.resetIssued == {}
  }

  // ---------------------------------------------------------------------------------------------
  // Invariant

  // Every key of the refresh store was issued, under its owner's id.
  predicate RefreshKeysIssued(s: State) {
    forall t :: t in s.stores.refresh.keys ==>
      t in s.issued && HolderOf(s.stores.refresh.keys[t].value) == Some(s.issued[t])
  }

  predicate IdsBelowNext(s: State) {
    && (forall t :: t in s.issued ==> t < s.next)
    && (forall j :: j in s.access ==> j < s.next && s.access[j].jti == j)
    && (forall t :: t in s.resetIssued ==> t < s.next)
    && (forall t :: t in s.stores.resets.keys ==> t in s.resetIssued && s.stores.resets.keys[t].value.Owner?)
  }

  // A user's index lists only that user's tokens, does not outlast one lifetime from now, and covers the user's
  // live keys.
  ghost predicate RefreshIndexOk(c: Config, s: State, markers: bool) {
    && (forall u :: u in s.stores.refresh.byUser ==>
          s.stores.refresh.byUser[u].expiresAt <= s.now + c.refreshTtl
          && forall t :: t in s.stores.refresh.byUser[u].members ==> t in s.issued && s.issued[t] == u)
    && (forall u :: CoversKeys(s.stores.refresh, u, s.now, markers))
  }

  predicate Tracked(s: State, a: Access) {
    && a.user in s.stores.revocations.accessByUser
    && a.jti in s.stores.revocations.accessByUser[a.user].members
    && a.exp <= s.stores.revocations.accessByUser[a.user].expiresAt
  }

  predicate AccessIndexOk(c: Config, s: State) {
    && (forall u :: u in s.stores.revocations.accessByUser ==>
          s.stores.revocations.accessByUser[u].expiresAt <= s.now + c.accessTtl
          && forall j :: j in s.stores.revocations.accessByUser[u].members ==> j in s.access && s.access[j].user == u)
    && (forall j :: j in s.access ==> s.access[j].exp <= s.now + c.accessTtl)
    && (forall j :: j in s.access && s.now < s.access[j].exp ==> Tracked(s, s.access[j]))
    && (forall j :: j in s.stores.revocations.keys ==> s.stores.revocations.keys[j].value == Revoked && j in s.access)
  }

  // `markers`: the indexes cover used markers too, which refreshes that overlap do not see to.
  ghost predicate InvUpTo(c: Config, s: State, markers: bool) {
    && c.Valid()
    && RefreshKeysIssued(s)
    && IdsBelowNext(s)
    && RefreshIndexOk(c, s, markers)
    && AccessIndexOk(c, s)
  }

  ghost predicate Inv(c: Config, s: State) { InvUpTo(c, s, true) }

  // ---------------------------------------------------------------------------------------------
  // Proof that each step keeps the invariant

  lemma TrackKeepsAccessIndex(c: Config, s: State, s': State, u: UserId)
    requires c.Valid() && IdsBelowNext(s) && AccessIndexOk(c, s) && s'.now == s.now
    requires s'.access == s.access[s.next := IssueAccess(c, u, s.next, s.now)]
    requires s'.stores.revocations == TrackAccess(s.stores.revocations, u, s.next, c.accessTtl, s.now)
    ensures AccessIndexOk(c, s')
  {
    assert s.next !in s.access;
    forall j | j in s'.access && s'.now < s'.access[j].exp ensures Tracked(s', s'.access[j]) {
      if j != s.next {
        assert Tracked(s, s.access[j]);
      }
    }
  }

  // `add_refresh_token` on a store whose live keys all end within one lifetime.
  lemma AddKeepsCover(prior: Store, u: UserId, n: Token, ttl: int, now: int, v: UserId, markers: bool)
    requires 0 < ttl && n !in prior.keys && CoversKeys(prior, v, now, markers)
    requires u in prior.byUser ==> prior.byUser[u].expiresAt <= now + ttl
    ensures CoversKeys(AddRefresh(prior, u, n, ttl, now), v, now, markers)
  {
    var renewed := AddRefresh(prior, u, n, ttl, now);
    forall k | MustCover(renewed, k, v, now, markers)
      ensures v in renewed.byUser && k in renewed.byUser[v].members
      ensures renewed.keys[k].expiresAt <= renewed.byUser[v].expiresAt
    {
      assert k != n ==> MustCover(prior, k, v, now, markers);
    }
  }

  lemma AddKeepsRefreshIndex(c: Config, s: State, s': State, u: UserId, t: Token, markers: bool)
    requires c.Valid() && RefreshIndexOk(c, s, markers) && RefreshKeysIssued(s) && t !in s.issued && s'.now == s.now
    requires s'.issued == s.issued[t := u]
    requires s'.stores.refresh == AddRefresh(s.stores.refresh, u, t, c.refreshTtl, s.now)
    ensures RefreshIndexOk(c, s', markers) && RefreshKeysIssued(s')
  {
    forall v ensures CoversKeys(s'.stores.refresh, v, s.now, markers) {
      AddKeepsCover(s.stores.refresh, u, t, c.refreshTtl, s.now, v, markers);
    }
  }

  // Rotation keeps every cover although the used marker may outlive the token it replaces. Only the marker of a
  // token that is no longer live may fall outside the index.
  lemma RotateKeepsCover(prior: Store, t: Token, u: UserId, n: Token, ttl: int, now: int, v: UserId, markers: bool)
    requires 0 < ttl && n !in prior.keys && n != t && (markers ==> Lookup(prior, t, now) == Some(Owner(u)))
    requires CoversKeys(prior, u, now, markers) && CoversKeys(prior, v, now, markers)
    requires u in prior.byUser ==> prior.byUser[u].expiresAt <= now + ttl
    ensures CoversKeys(Rotate(prior, t, u, n, ttl, now), v, now, markers)
  {
    var renewed := Rotate(prior, t, u, n, ttl, now);
    assert markers ==> MustCover(prior, t, u, now, markers);
    forall k | MustCover(renewed, k, v, now, markers)
      ensures v in renewed.byUser && k in renewed.byUser[v].members
      ensures renewed.keys[k].expiresAt <= renewed.byUser[v].expiresAt
    {
      if k != t && k != n {
        assert renewed.keys[k] == prior.keys[k];
        assert MustCover(prior, k, v, now, markers);
      }
    }
  }

  lemma RotateKeepsRefreshIndex(c: Config, s: State, s': State, t: Token, u: UserId, markers: bool)
    requires c.Valid() && RefreshIndexOk(c, s, markers) && RefreshKeysIssued(s) && s'.now == s.now
    requires t in s.issued && s.issued[t] == u && (markers ==> Lookup(s.stores.refresh, t, s.now) == Some(Owner(u)))
    requires s'.stores.refresh == Rotate(s.stores.refresh, t, u, s.next + 1, c.refreshTtl, s.now)
    requires s'.issued == s.issued[s.next + 1 := u] && s.next + 1 !in s.issued
    ensures RefreshIndexOk(c, s', markers) && RefreshKeysIssued(s')
  {
    var prior := s.stores.refresh;
    assert CoversKeys(prior, u, s.now, markers);
    forall v ensures CoversKeys(s'.stores.refresh, v, s.now, markers) {
      assert CoversKeys(prior, v, s.now, markers);
      RotateKeepsCover(prior, t, u, s.next + 1, c.refreshTtl, s.now, v, markers);
    }
  }

  lemma LoginKeepsInv(c: Config, s: State, u: UserId, markers: bool)
    requires InvUpTo(c, s, markers)
    ensures InvUpTo(c, Execute(c, s, Login(u)).0, markers)
  {
    if u in s.users {
      var s' := Execute(c, s, Login(u)).0;
      TrackKeepsAccessIndex(c, s, s', u);
      AddKeepsRefreshIndex(c, s, s', u, s.next + 1, markers);
    }
  }

  lemma RevokeSessionsKeepsInv(c: Config, s: State, u: UserId, markers: bool)
    requires InvUpTo(c, s, markers)
    ensures InvUpTo(c, s.(stores := RevokeSessions(s.stores, u, s.now)), markers)
  {
    var s' := s.(stores := RevokeSessions(s.stores, u, s.now));
    forall v ensures CoversKeys(s'.stores.refresh, v, s.now, markers) {
      assert CoversKeys(s.stores.refresh, v, s.now, markers);
    }
    forall j | j in s'.access && s'.now < s'.access[j].exp ensures Tracked(s', s'.access[j]) {
      assert Tracked(s, s.access[j]);
    }
  }

  lemma RedeemKeepsInv(c: Config, s: State, t: Token, u: UserId, markers: bool)
    requires InvUpTo(c, s, markers) && Lookup(s.stores.refresh, t, s.now) == Some(Owner(u)) && u in s.users
    ensures InvUpTo(c, Execute(c, s, Refresh(t)).0, markers)
  {
    var s' := Execute(c, s, Refresh(t)).0;
    assert AccessIndexOk(c, s') by { TrackKeepsAccessIndex(c, s, s', u); }
    assert RefreshIndexOk(c, s', markers) && RefreshKeysIssued(s') by {
      RotateKeepsRefreshIndex(c, s, s', t, u, markers);
    }
  }

  lemma RefreshKeepsInv(c: Config, s: State, t: Token, markers: bool)
    requires InvUpTo(c, s, markers)
    ensures InvUpTo(c, Execute(c, s, Refresh(t)).0, markers)
  {
    match Lookup(s.stores.refresh, t, s.now)
    case Some(Used(u)) => RevokeSessionsKeepsInv(c, s, u, markers);
    case Some(Owner(u)) => if u in s.users { RedeemKeepsInv(c, s, t, u, markers); }
    case _ =>
  }

  lemma RevokeKeysKeepsInv(c: Config, s: State, s': State, markers: bool)
    requires InvUpTo(c, s, markers)
    requires exists gone: set<Token> :: s'.stores.refresh == s.stores.refresh.(keys := s.stores.refresh.keys - gone)
    requires s'.stores.revocations == s.stores.revocations
      || exists j :: j in s.access && s'.stores.revocations == RevokeJti(s.stores.revocations, j, None, s.now)
    requires s'.stores.resets == s.stores.resets
    requires s' == s.(stores := s'.stores)
    ensures InvUpTo(c, s', markers)
  {
    forall v ensures CoversKeys(s'.stores.refresh, v, s.now, markers) {
      assert CoversKeys(s.stores.refresh, v, s.now, markers);
    }
    forall j | j in s'.access && s'.now < s'.access[j].exp ensures Tracked(s', s'.access[j]) {
      assert Tracked(s, s.access[j]);
    }
  }

  lemma ConsumeKeepsInv(c: Config, s: State, t: Token, markers: bool)
    requires InvUpTo(c, s, markers)
    ensures InvUpTo(c, s.(stores := s.stores.(resets := Consume(s.stores.resets, t, s.now).0)), markers)
  {
    var s' := s.(stores := s.stores.(resets := Consume(s.stores.resets, t, s.now).0));
    forall v ensures CoversKeys(s'.stores.refresh, v, s.now, markers) {
      assert CoversKeys(s.stores.refresh, v, s.now, markers);
    }
    forall j | j in s'.access && s'.now < s'.access[j].exp ensures Tracked(s', s'.access[j]) {
      assert Tracked(s, s.access[j]);
    }
  }

  lemma ConfirmIs(c: Config, s: State, t: Token)
    ensures var (resets, who) := Consume(s.stores.resets, t, s.now);
            var s1 := s.(stores := s.stores.(resets := resets));
            Execute(c, s, ConfirmReset(t)).0 ==
              if who.User? && who.id in s.users then s1.(stores := RevokeSessions(s1.stores, who.id, s.now)) else s1
  {
  }

  lemma ConfirmKeepsInv(c: Config, s: State, t: Token, markers: bool)
    requires InvUpTo(c, s, markers)
    ensures InvUpTo(c, Execute(c, s, ConfirmReset(t)).0, markers)
  {
    var (resets, who) := Consume(s.stores.resets, t, s.now);
    var s1 := s.(stores := s.stores.(resets := resets));
    ConfirmIs(c, s, t);
    ConsumeKeepsInv(c, s, t, markers);
    if who.User? && who.id in s.users {
      RevokeSessionsKeepsInv(c, s1, who.id, markers);
    }
  }

  lemma QuietKeepsInv(c: Config, s: State, op: Op, markers: bool)
    requires InvUpTo(c, s, markers) && (op.Advance? || op.AddUser? || op.DeleteUser? || op.RequestReset?)
    ensures InvUpTo(c, Execute(c, s, op).0, markers)
  {
    var s' := Execute(c, s, op).0;
    forall v ensures CoversKeys(s'.stores.refresh, v, s'.now, markers) {
      assert CoversKeys(s.stores.refresh, v, s.now, markers);
    }
    forall j | j in s'.access && s'.now < s'.access[j].exp ensures Tracked(s', s'.access[j]) {
      assert Tracked(s, s.access[j]);
    }
  }

  lemma ExecuteKeepsInvUpTo(c: Config, s: State, op: Op, markers: bool)
    requires InvUpTo(c, s, markers)
    ensures InvUpTo(c, Execute(c, s, op).0, markers)
  {
    match op
    case Login(u) => LoginKeepsInv(c, s, u, markers);
    case Refresh(t) => RefreshKeepsInv(c, s, t, markers);
    case Logout(t, jti) =>
      var s' := Execute(c, s, op).0;
      if s' != s {
        assert s'.stores.refresh == s.stores.refresh.(keys := s.stores.refresh.keys - {t});
        RevokeKeysKeepsInv(c, s, s', markers);
      }
    case ConfirmReset(t) => ConfirmKeepsInv(c, s, t, markers);
    case ChangePassword(u) =>
      var s' := Execute(c, s, op).0;
      if s' != s {
        assert s'.stores.refresh
            == s.stores.refresh.(keys := s.stores.refresh.keys - Members(s.stores.refresh.byUser, u, s.now));
        RevokeKeysKeepsInv(c, s, s', markers);
      }
    case _ => QuietKeepsInv(c, s, op, markers);
  }

  lemma ExecuteKeepsInv(c: Config, s: State, op: Op)
    requires Inv(c, s)
    ensures Inv(c, Execute(c, s, op).0)
  {
    ExecuteKeepsInvUpTo(c, s, op, true);
  }

  lemma {:induction false} RunKeepsInv(c: Config, s: State, ops: seq<Op>)
    requires Inv(c, s)
    ensures Inv(c, Run(c, s, ops))
    decreases |ops|
  {
    if ops != [] {
      ExecuteKeepsInv(c, s, ops[0]);
      RunKeepsInv(c, Execute(c, s, ops[0]).0, ops[1..]);
    }
  }

  lemma InitialInv(c: Config, s: State)
    requires c.Valid() && Initial(s)
    ensures Inv(c, s)
  {
  }

  // ---------------------------------------------------------------------------------------------
  // The life of a refresh token

  datatype Stage = Unissued | Live | Spent | Gone

  function StageOf(s: State, t: Token): Stage {
    if t !in s.issued then Unissued
    else match Lookup(s.stores.refresh, t, s.now)
         case Some(Owner(_)) => Live
         case Some(Used(_)) => Spent
         case _ => Gone
  }

  function Rank(g: Stage): nat { match g case Unissued => 0 case Live => 1 case Spent => 2 case Gone => 3 }

  // What a step does to the key of a token issued before: nothing, deletion, or the marker of its redemption.
  lemma IssuedKeyStep(c: Config, s: State, op: Op, t: Token)
    requires Inv(c, s) && t in s.issued
    ensures s.now <= Execute(c, s, op).0.now
    ensures t in Execute(c, s, op).0.issued && Execute(c, s, op).0.issued[t] == s.issued[t]
    ensures var k, k' := s.stores.refresh.keys, Execute(c, s, op).0.stores.refresh.keys;
            t in k' ==> t in k && (k'[t] == k[t] || (StageOf(s, t) == Live && k'[t].value.Used?))
  {
    assert t < s.next;
    match op
    case Login(u) =>
    case Refresh(p) =>
    case ConfirmReset(p) =>
    case _ =>
  }

  lemma StageOnlyAdvances(c: Config, s: State, op: Op, t: Token)
    requires Inv(c, s)
    ensures Rank(StageOf(s, t)) <= Rank(StageOf(Execute(c, s, op).0, t))
  {
    if t in s.issued {
      IssuedKeyStep(c, s, op, t);
      assert t in s.stores.refresh.keys ==> HolderOf(s.stores.refresh.keys[t].value).Some?;
    }
  }

  lemma {:induction false} StageNeverReturns(c: Config, s: State, ops: seq<Op>, t: Token)
    requires Inv(c, s)
    ensures Rank(StageOf(s, t)) <= Rank(StageOf(Run(c, s, ops), t))
    decreases |ops|
  {
    if ops != [] {
      var s1 := Execute(c, s, ops[0]).0;
      ExecuteKeepsInv(c, s, ops[0]);
      StageOnlyAdvances(c, s, ops[0], t);
      StageNeverReturns(c, s1, ops[1..], t);
    }
  }

  // Refreshing answers with a new pair exactly for a live token of an existing user; an unknown token changes
  // nothing.
  lemma RefreshAnswers(c: Config, s: State, t: Token)
    requires Inv(c, s)
    ensures Execute(c, s, Refresh(t)).1.Pair? <==> (StageOf(s, t) == Live && s.issued[t] in s.users)
    ensures Execute(c, s, Refresh(t)).1.Pair? ==>
      StageOf(Execute(c, s, Refresh(t)).0, t) == Spent
      && s.issued[t] == Execute(c, s, Refresh(t)).1.access.user
      && Execute(c, s, Refresh(t)).0.issued[Execute(c, s, Refresh(t)).1.refresh] == s.issued[t]
      && StageOf(Execute(c, s, Refresh(t)).0, Execute(c, s, Refresh(t)).1.refresh) == Live
    ensures StageOf(s, t) == Live && s.issued[t] !in s.users ==> Execute(c, s, Refresh(t)) == (s, NotFound)
    ensures StageOf(s, t) != Live ==> Execute(c, s, Refresh(t)).1 == Unauthorized
    ensures StageOf(s, t) == Unissued || StageOf(s, t) == Gone ==> Execute(c, s, Refresh(t)).0 == s
  {
  }

  /** A pair that login or refresh hands out works: its access token is let in, and its refresh token is
    live. */
  lemma PairWorks(c: Config, s: State, op: Op)
    requires Inv(c, s) && (op.Login? || op.Refresh?) && Execute(c, s, op).1.Pair?
    ensures Accepts(Execute(c, s, op).0, Execute(c, s, op).1.access)
    ensures StageOf(Execute(c, s, op).0, Execute(c, s, op).1.refresh) == Live
    ensures Execute(c, s, op).0.issued[Execute(c, s, op).1.refresh] == Execute(c, s, op).1.access.user
    ensures Execute(c, s, op).1.access.exp == s.now + c.accessTtl
  {
    assert s.next !in s.access && s.next !in s.stores.revocations.keys;
  }

  /** Login hands out a pair, for the user who signed in, exactly if the account is there; logout takes an access
    token that is let in. Neither changes anything when it refuses. */
  lemma SignInAndOut(c: Config, s: State, u: UserId, t: Token, jti: Token)
    requires Inv(c, s)
    ensures Execute(c, s, Login(u)).1.Pair? <==> u in s.users
    ensures u in s.users ==>
      Execute(c, s, Login(u)).1.access.user == u
      && Execute(c, s, Login(u)).0.issued[Execute(c, s, Login(u)).1.refresh] == u
    ensures u !in s.users ==> Execute(c, s, Login(u)) == (s, Unauthorized)
    ensures Execute(c, s, Logout(t, jti)).1 == Ok <==> jti in s.access && Accepts(s, s.access[jti])
    ensures Execute(c, s, Logout(t, jti)).1 != Ok ==> Execute(c, s, Logout(t, jti)) == (s, Unauthorized)
    ensures c.accessTtl <= 86_400 && Execute(c, s, Logout(t, jti)).1 == Ok ==>
      StageOf(Execute(c, s, Logout(t, jti)).0, t) != Live
      && !Accepts(Execute(c, s, Logout(t, jti)).0, s.access[jti])
  {
  }

  /** A refresh token yields a new pair at most once in a whole run, although the marker that remembers it
    lives for a minute at most. That is for use cases that run one after the other; module `Refreshes` has
    those that overlap. */
  lemma RedeemedAtMostOnce(c: Config, s: State, before: seq<Op>, t: Token, between: seq<Op>)
    requires c.Valid() && Initial(s)
    requires Execute(c, Run(c, s, before), Refresh(t)).1.Pair?
    ensures !Execute(c, Run(c, Execute(c, Run(c, s, before), Refresh(t)).0, between), Refresh(t)).1.Pair?
  {
    InitialInv(c, s);
    RunKeepsInv(c, s, before);
    var s1 := Run(c, s, before);
    RefreshAnswers(c, s1, t);
    ExecuteKeepsInv(c, s1, Refresh(t));
    var s2 := Execute(c, s1, Refresh(t)).0;
    RunKeepsInv(c, s2, between);
    StageNeverReturns(c, s2, between, t);
    RefreshAnswers(c, Run(c, s2, between), t);
  }

  // A marker never gets a later expiry than the one it was born with.
  predicate MarkedUntil(s: State, t: Token, limit: int) {
    t in s.issued && (Lookup(s.stores.refresh, t, s.now).Some? ==>
      s.stores.refresh.keys[t].value.Used? && s.stores.refresh.keys[t].expiresAt <= limit)
  }

  lemma MarkerStepKeepsLimit(c: Config, s: State, op: Op, t: Token, limit: int)
    requires Inv(c, s) && MarkedUntil(s, t, limit)
    ensures MarkedUntil(Execute(c, s, op).0, t, limit)
  {
    IssuedKeyStep(c, s, op, t);
  }

  lemma {:induction false} MarkerKeepsLimit(c: Config, s: State, ops: seq<Op>, t: Token, limit: int)
    requires Inv(c, s) && MarkedUntil(s, t, limit)
    ensures MarkedUntil(Run(c, s, ops), t, limit)
    decreases |ops|
  {
    if ops != [] {
      var s1 := Execute(c, s, ops[0]).0;
      ExecuteKeepsInv(c, s, ops[0]);
      MarkerStepKeepsLimit(c, s, ops[0], t, limit);
      MarkerKeepsLimit(c, s1, ops[1..], t, limit);
    }
  }

  /** A replay is noticed only while the marker lives, and that is never longer than 60 seconds after the
    redemption: from then on the token is simply unknown. */
  lemma MarkerLivesAtMostAMinute(c: Config, s: State, t: Token, ops: seq<Op>)
    requires Inv(c, s) && Execute(c, s, Refresh(t)).1.Pair?
    ensures var s1 := Run(c, Execute(c, s, Refresh(t)).0, ops);
            s.now + (if c.refreshTtl < 60 then c.refreshTtl else 60) <= s1.now ==>
              StageOf(s1, t) == Gone && Execute(c, s1, Refresh(t)) == (s1, Unauthorized)
  {
    ExecuteKeepsInv(c, s, Refresh(t));
    var s0 := Execute(c, s, Refresh(t)).0;
    MarkerKeepsLimit(c, s0, ops, t, s.now + Min(60, c.refreshTtl));
    RunKeepsInv(c, s0, ops);
  }

  // ---------------------------------------------------------------------------------------------
  // Revoking every session of a user

  // The steps that call `revoke_all_for_user` for `u`.
  predicate RevokesRefresh(c: Config, s: State, op: Op, u: UserId) {
    match op
    case Refresh(t) => Lookup(s.stores.refresh, t, s.now) == Some(Used(u))
    case ConfirmReset(t) => u in s.users && Consume(s.stores.resets, t, s.now).1 == User(u)
    case ChangePassword(v) => v == u && u in s.users
    case _ => false
  }

  // The steps that revoke the access tokens of `u` as well.
  predicate RevokesAccess(c: Config, s: State, op: Op, u: UserId) {
    RevokesRefresh(c, s, op, u) && !op.ChangePassword?
  }

  lemma RevokeStepRemoves(c: Config, s: State, op: Op, u: UserId, t: Token)
    requires Inv(c, s) && RevokesRefresh(c, s, op, u) && t in s.issued
    ensures s.issued[t] == u ==> StageOf(Execute(c, s, op).0, t) == Gone
    ensures s.issued[t] != u ==> StageOf(Execute(c, s, op).0, t) == StageOf(s, t)
  {
    RevokeAllRemoves(s.stores.refresh, u, s.now, t);
  }

  // The steps that delete the key of `t`.
  predicate Deletes(c: Config, s: State, op: Op, t: Token)
    requires t in s.issued
  {
    match op
    case Logout(x, jti) => x == t && jti in s.access && Accepts(s, s.access[jti])
    case _ => RevokesRefresh(c, s, op, s.issued[t])
  }

  predicate Undisturbed(c: Config, s: State, ops: seq<Op>, t: Token)
    decreases |ops|
  {
    ops == [] ||
    (t in s.issued && !Deletes(c, s, ops[0], t) && Undisturbed(c, Execute(c, s, ops[0]).0, ops[1..], t))
  }

  // The marker of a redeemed token, as it was written.
  predicate Marked(s: State, t: Token, until: int) {
    t in s.issued && t in s.stores.refresh.keys && s.stores.refresh.keys[t] == Entry(Used(s.issued[t]), until)
  }

  // Revoking another user's tokens leaves this one's key.
  lemma OthersKept(s: State, u: UserId, t: Token)
    requires t in s.issued && t in s.stores.refresh.keys
    requires forall v :: v in s.stores.refresh.byUser ==>
      forall x :: x in s.stores.refresh.byUser[v].members ==> x in s.issued && s.issued[x] == v
    ensures s.issued[t] != u ==>
      t in RevokeAll(s.stores.refresh, u, s.now).keys
      && RevokeAll(s.stores.refresh, u, s.now).keys[t] == s.stores.refresh.keys[t]
  {
  }

  lemma MarkerKept(c: Config, s: State, op: Op, t: Token, until: int)
    requires Inv(c, s) && Marked(s, t, until) && s.now < until && !Deletes(c, s, op, t)
    ensures Marked(Execute(c, s, op).0, t, until)
  {
    assert t < s.next;
    match op
    case Login(u) =>
    case Refresh(x) =>
      if Lookup(s.stores.refresh, x, s.now).Some? && s.stores.refresh.keys[x].value.Used? {
        OthersKept(s, s.stores.refresh.keys[x].value.user, t);
      }
    case ConfirmReset(x) =>
      ConfirmIs(c, s, x);
      var who := Consume(s.stores.resets, x, s.now).1;
      if who.User? { OthersKept(s, who.id, t); }
    case ChangePassword(u) => OthersKept(s, u, t);
    case _ =>
  }

  lemma MarkerStep(c: Config, s: State, op: Op, t: Token, until: int)
    requires Inv(c, s) && Marked(s, t, until) && s.now < until
    ensures t in Execute(c, s, op).0.issued
    ensures Deletes(c, s, op, t) ==> t !in Execute(c, s, op).0.stores.refresh.keys
    ensures !Deletes(c, s, op, t) ==> Marked(Execute(c, s, op).0, t, until)
  {
    IssuedKeyStep(c, s, op, t);
    assert Covers(s.stores.refresh, s.issued[t], s.now);
    assert t in Members(s.stores.refresh.byUser, s.issued[t], s.now);
    if !Deletes(c, s, op, t) {
      MarkerKept(c, s, op, t, until);
    }
  }

  lemma MarkerNext(c: Config, s: State, op: Op, t: Token, until: int)
    requires Inv(c, s) && Marked(s, t, until) && s.now < until
    ensures Inv(c, Execute(c, s, op).0) && t in Execute(c, s, op).0.issued
    ensures if Deletes(c, s, op, t) then StageOf(Execute(c, s, op).0, t) == Gone
            else Marked(Execute(c, s, op).0, t, until)
  {
    ExecuteKeepsInv(c, s, op);
    MarkerStep(c, s, op, t, until);
  }

  lemma {:induction false} NowOnlyAdvances(c: Config, s: State, ops: seq<Op>)
    ensures s.now <= Run(c, s, ops).now
    decreases |ops|
  {
    if ops != [] {
      NowOnlyAdvances(c, Execute(c, s, ops[0]).0, ops[1..]);
    }
  }

  lemma {:induction false} MarkedIff(c: Config, s: State, ops: seq<Op>, t: Token, until: int)
    requires Inv(c, s) && Marked(s, t, until) && Run(c, s, ops).now < until
    ensures if Undisturbed(c, s, ops, t) then StageOf(Run(c, s, ops), t) == Spent
            else StageOf(Run(c, s, ops), t) == Gone
    decreases |ops|
  {
    NowOnlyAdvances(c, s, ops);
    if ops != [] {
      var s1 := Execute(c, s, ops[0]).0;
      MarkerNext(c, s, ops[0], t, until);
      if Deletes(c, s, ops[0], t) {
        StageNeverReturns(c, s1, ops[1..], t);
      } else {
        MarkedIff(c, s1, ops[1..], t, until);
      }
    }
  }

  lemma NoticedReplayRevokesAll(c: Config, s: State, t: Token)
    requires Inv(c, s) && t in s.issued && RevokesRefresh(c, s, Refresh(t), s.issued[t])
    ensures forall x :: x in s.issued && s.issued[x] == s.issued[t] ==> StageOf(Execute(c, s, Refresh(t)).0, x) == Gone
  {
    forall x | x in s.issued && s.issued[x] == s.issued[t] ensures StageOf(Execute(c, s, Refresh(t)).0, x) == Gone {
      RevokeStepRemoves(c, s, Refresh(t), s.issued[t], x);
    }
  }

  lemma ReplayIsSpent(c: Config, s: State, t: Token)
    requires Inv(c, s) && t in s.issued
    ensures RevokesRefresh(c, s, Refresh(t), s.issued[t]) <==> StageOf(s, t) == Spent
  {
  }

  lemma RedemptionMarks(c: Config, s: State, t: Token)
    requires Inv(c, s) && Execute(c, s, Refresh(t)).1.Pair?
    ensures Inv(c, Execute(c, s, Refresh(t)).0)
    ensures Marked(Execute(c, s, Refresh(t)).0, t, s.now + Min(60, c.refreshTtl))
    ensures Rank(StageOf(Execute(c, s, Refresh(t)).0, t)) == 2
  {
    ExecuteKeepsInv(c, s, Refresh(t));
    assert t < s.next;
  }

  /** When a replay is noticed: until a minute, or one token lifetime if that is shorter, has passed since the
    redemption, unless the user's sessions have been revoked since or the token's own key deleted by a logout.
    Being noticed, it revokes every refresh token of the user. */
  lemma ReplayNoticedIff(c: Config, s: State, t: Token, ops: seq<Op>)
    requires Inv(c, s) && Execute(c, s, Refresh(t)).1.Pair?
    ensures var s0 := Execute(c, s, Refresh(t)).0;
            var s1 := Run(c, s0, ops);
            && t in s1.issued
            && (RevokesRefresh(c, s1, Refresh(t), s1.issued[t]) <==>
                  s1.now < s.now + (if c.refreshTtl < 60 then c.refreshTtl else 60) && Undisturbed(c, s0, ops, t))
            && (RevokesRefresh(c, s1, Refresh(t), s1.issued[t]) ==>
                  forall x :: x in s1.issued && s1.issued[x] == s1.issued[t] ==>
                    StageOf(Execute(c, s1, Refresh(t)).0, x) == Gone)
  {
    var until := s.now + Min(60, c.refreshTtl);
    RedemptionMarks(c, s, t);
    var s0 := Execute(c, s, Refresh(t)).0;
    var s1 := Run(c, s0, ops);
    RunKeepsInv(c, s0, ops);
    StageNeverReturns(c, s0, ops, t);
    ReplayIsSpent(c, s1, t);
    if s1.now < until {
      MarkedIff(c, s0, ops, t, until);
    } else {
      MarkerKeepsLimit(c, s0, ops, t, until);
    }
    if StageOf(s1, t) == Spent {
      NoticedReplayRevokesAll(c, s1, t);
    }
  }

  /** After a replay, a password reset or a password change, no refresh token issued to that user before is
    ever accepted again; the tokens of every other user are as they were. */
  lemma RevokedRefreshTokensStayDead(c: Config, s: State, before: seq<Op>, op: Op, u: UserId, after: seq<Op>, t: Token)
    requires c.Valid() && Initial(s)
    requires RevokesRefresh(c, Run(c, s, before), op, u) && t in Run(c, s, before).issued
    ensures Run(c, s, before).issued[t] == u ==>
      StageOf(Run(c, Execute(c, Run(c, s, before), op).0, after), t) == Gone
      && !Execute(c, Run(c, Execute(c, Run(c, s, before), op).0, after), Refresh(t)).1.Pair?
    ensures Run(c, s, before).issued[t] != u ==>
      StageOf(Execute(c, Run(c, s, before), op).0, t) == StageOf(Run(c, s, before), t)
  {
    InitialInv(c, s);
    RunKeepsInv(c, s, before);
    var s1 := Run(c, s, before);
    RevokeStepRemoves(c, s1, op, u, t);
    ExecuteKeepsInv(c, s1, op);
    var s2 := Execute(c, s1, op).0;
    StageNeverReturns(c, s2, after, t);
    RunKeepsInv(c, s2, after);
    RefreshAnswers(c, Run(c, s2, after), t);
  }

  // ---------------------------------------------------------------------------------------------
  // Access tokens

  // From here on the token is refused: it is past its `exp`, or a marker outlives it.
  predicate Barred(s: State, a: Access) {
    s.now < a.exp ==>
      a.jti in s.stores.revocations.keys
      && s.stores.revocations.keys[a.jti].value == Revoked
      && a.exp <= s.stores.revocations.keys[a.jti].expiresAt
  }

  lemma RevokeStepBars(c: Config, s: State, op: Op, u: UserId, j: Token)
    requires AccessIndexOk(c, s) && IdsBelowNext(s) && RevokesAccess(c, s, op, u) && c.accessTtl <= 86_400
    requires j in s.access && s.access[j].user == u
    ensures Barred(Execute(c, s, op).0, s.access[j])
  {
    if s.now < s.access[j].exp {
      assert Tracked(s, s.access[j]);
      assert j in Members(s.stores.revocations.accessByUser, u, s.now);
    }
  }

  // A step leaves the marker of a revoked access token alone, or writes a new one for a day.
  lemma RevokedKeyStep(c: Config, s: State, op: Op, j: Token)
    requires IdsBelowNext(s) && j in s.access
    ensures s.now <= Execute(c, s, op).0.now
    ensures j in Execute(c, s, op).0.access && Execute(c, s, op).0.access[j] == s.access[j]
    ensures var k, k' := s.stores.revocations.keys, Execute(c, s, op).0.stores.revocations.keys;
            j in k ==> j in k' && (k'[j] == k[j] || k'[j] == Entry(Revoked, s.now + DAY))
  {
    assert j < s.next;
    match op
    case Login(u) =>
    case Refresh(p) =>
    case ConfirmReset(p) =>
    case _ =>
  }

  lemma BarredStep(c: Config, s: State, op: Op, j: Token)
    requires AccessIndexOk(c, s) && IdsBelowNext(s)
    requires c.accessTtl <= 86_400 && j in s.access && Barred(s, s.access[j])
    ensures j in Execute(c, s, op).0.access && Execute(c, s, op).0.access[j] == s.access[j]
    ensures Barred(Execute(c, s, op).0, s.access[j])
  {
    assert s.access[j].exp <= s.now + DAY;
    RevokedKeyStep(c, s, op, j);
  }

  lemma {:induction false} BarredForever(c: Config, s: State, ops: seq<Op>, j: Token, a: Access)
    requires Inv(c, s) && c.accessTtl <= 86_400 && j in s.access && s.access[j] == a && Barred(s, a)
    ensures Barred(Run(c, s, ops), a)
    decreases |ops|
  {
    if ops != [] {
      var s1 := Execute(c, s, ops[0]).0;
      ExecuteKeepsInv(c, s, ops[0]);
      BarredStep(c, s, ops[0], j);
      BarredForever(c, s1, ops[1..], j, a);
    }
  }

  // The statement below, for one configuration.
  ghost predicate RevocationOutlivesTokens(c: Config) {
    forall s, before, op, u, after, j ::
      Initial(s) && RevokesAccess(c, Run(c, s, before), op, u)
      && j in Run(c, s, before).access && Run(c, s, before).access[j].user == u
      ==> !Accepts(Run(c, Execute(c, Run(c, s, before), op).0, after), Run(c, s, before).access[j])
  }

  lemma RevokedAccessTokensStayDead(c: Config, s: State, before: seq<Op>, op: Op, u: UserId, after: seq<Op>, j: Token)
    requires c.Valid() && c.accessTtl <= 86_400 && Initial(s) && RevokesAccess(c, Run(c, s, before), op, u)
    requires j in Run(c, s, before).access && Run(c, s, before).access[j].user == u
    ensures !Accepts(Run(c, Execute(c, Run(c, s, before), op).0, after), Run(c, s, before).access[j])
  {
    InitialInv(c, s);
    RunKeepsInv(c, s, before);
    var s1 := Run(c, s, before);
    RevokeStepBars(c, s1, op, u, j);
    ExecuteKeepsInv(c, s1, op);
    BarredForever(c, Execute(c, s1, op).0, after, j, s1.access[j]);
  }

  lemma RunOne(c: Config, s: State, op: Op)
    ensures Run(c, s, [op]) == Execute(c, s, op).0
  {
    assert [op][1..] == [];
    assert Run(c, s, [op]) == Run(c, Execute(c, s, op).0, []);
  }

  // User 7 asks for a reset and logs in, at time 0.
  lemma ResetThenLogin(c: Config, s: State) returns (t: State)
    requires c.Valid() && s == State(0, Stores(EMPTY, EMPTY, EMPTY), {7}, 0, map[], map[], {})
    ensures t == Run(c, s, [RequestReset(7), Login(7)])
    ensures t.now == 0 && t.users == {7} && t.access == map[1 := Access(1, 7, c.accessTtl)]
    ensures t.stores.resets.keys == map[0 := Entry(Owner(7), c.resetTtl)]
    ensures t.stores.revocations == Store(map[], map[], map[7 := Index({1}, c.accessTtl)])
  {
    var s1 := Execute(c, s, RequestReset(7)).0;
    t := Execute(c, s1, Login(7)).0;
    assert [RequestReset(7), Login(7)][1..] == [Login(7)];
    RunOne(c, s1, Login(7));
    assert Members(s1.stores.revocations.accessByUser, 7, 0) + {1} == {1};
  }

  // With longer-lived access tokens: the password is reset, and a day passes.
  lemma LongLivedTokenComesBack(c: Config)
    requires c.Valid() && 86_400 < c.accessTtl
    ensures !RevocationOutlivesTokens(c)
  {
    var s := State(0, Stores(EMPTY, EMPTY, EMPTY), {7}, 0, map[], map[], {});
    var t := ResetThenLogin(c, s);
    assert RevokesAccess(c, t, ConfirmReset(0), 7);
    var u := Execute(c, t, ConfirmReset(0)).0;
    assert u.stores.revocations.keys == map[1 := Entry(Revoked, DAY)];
    RunOne(c, u, Advance(DAY));
    assert Accepts(Run(c, u, [Advance(DAY)]), t.access[1]);
    assert Initial(s);
  }

  /** After a replay or a password reset no access token issued to that user before is ever accepted again,
    if and only if access tokens are configured to live no longer than the day a revocation is remembered. */
  lemma RevocationOutlivesTokensIff(c: Config)
    requires c.Valid()
    ensures RevocationOutlivesTokens(c) <==> c.accessTtl <= 86_400
  {
    if c.accessTtl <= 86_400 {
      forall s, before, op, u, after, j |
        Initial(s) && RevokesAccess(c, Run(c, s, before), op, u)
        && j in Run(c, s, before).access && Run(c, s, before).access[j].user == u
        ensures !Accepts(Run(c, Execute(c, Run(c, s, before), op).0, after), Run(c, s, before).access[j])
      {
        RevokedAccessTokensStayDead(c, s, before, op, u, after, j);
      }
    } else {
      LongLivedTokenComesBack(c);
    }
  }

  // ---------------------------------------------------------------------------------------------
  // Password-reset tokens

  lemma ConsumedStep(c: Config, s: State, op: Op, t: Token)
    requires t < s.next && t !in s.stores.resets.keys
    ensures t < Execute(c, s, op).0.next && t !in Execute(c, s, op).0.stores.resets.keys
  {
    match op
    case Refresh(p) =>
    case ConfirmReset(p) =>
    case _ =>
  }

  lemma {:induction false} ConsumedStaysGone(c: Config, s: State, ops: seq<Op>, t: Token)
    requires t < s.next && t !in s.stores.resets.keys
    ensures t !in Run(c, s, ops).stores.resets.keys
    decreases |ops|
  {
    if ops != [] {
      ConsumedStep(c, s, ops[0], t);
      ConsumedStaysGone(c, Execute(c, s, ops[0]).0, ops[1..], t);
    }
  }

  /** A reset token resets a password at most once. */
  lemma ResetTokenUsedOnce(c: Config, s: State, before: seq<Op>, t: Token, between: seq<Op>)
    requires c.Valid() && Initial(s)
    requires Execute(c, Run(c, s, before), ConfirmReset(t)).1 == Ok
    ensures Execute(c, Run(c, Execute(c, Run(c, s, before), ConfirmReset(t)).0, between), ConfirmReset(t)).1
         == Unauthorized
  {
    InitialInv(c, s);
    RunKeepsInv(c, s, before);
    var s1 := Run(c, s, before);
    ExecuteKeepsInv(c, s1, ConfirmReset(t));
    assert t in s1.stores.resets.keys && t in s1.resetIssued;
    ConsumedStaysGone(c, Execute(c, s1, ConfirmReset(t)).0, between, t);
  }

  lemma ResetKeyStep(c: Config, s: State, op: Op, t: Token, u: UserId, until: int)
    requires IdsBelowNext(s) && t in s.stores.resets.keys && s.stores.resets.keys[t] == Entry(Owner(u), until)
    ensures var s' := Execute(c, s, op).0;
            if op == ConfirmReset(t) && s.now < until then t !in s'.stores.resets.keys
            else t in s'.stores.resets.keys && s'.stores.resets.keys[t] == Entry(Owner(u), until)
  {
    assert t < s.next;
    match op
    case Refresh(p) =>
    case ConfirmReset(p) =>
    case _ =>
  }

  // The key of a reset token stays as it was written until a confirmation takes it.
  lemma {:induction false} ResetKeyRun(c: Config, s: State, ops: seq<Op>, t: Token, u: UserId, until: int)
    requires Inv(c, s) && t in s.stores.resets.keys && s.stores.resets.keys[t] == Entry(Owner(u), until)
    ensures var end := Run(c, s, ops);
            && (t in end.stores.resets.keys ==> end.stores.resets.keys[t] == Entry(Owner(u), until))
            && (end.now < until ==> (t in end.stores.resets.keys <==> ConfirmReset(t) !in ops))
    decreases |ops|
  {
    if ops != [] {
      var s1 := Execute(c, s, ops[0]).0;
      ExecuteKeepsInv(c, s, ops[0]);
      ResetKeyStep(c, s, ops[0], t, u, until);
      assert ConfirmReset(t) in ops <==> ops[0] == ConfirmReset(t) || ConfirmReset(t) in ops[1..];
      NowOnlyAdvances(c, s1, ops[1..]);
      if ops[0] == ConfirmReset(t) && s.now < until {
        assert t < s.next;
        ConsumedStaysGone(c, s1, ops[1..], t);
      } else {
        ResetKeyRun(c, s1, ops[1..], t, u, until);
      }
    }
  }

  lemma ConfirmAnswers(c: Config, s: State, t: Token)
    requires Inv(c, s)
    ensures var (after, answer) := Execute(c, s, ConfirmReset(t));
            var live := t in s.stores.resets.keys && s.now < s.stores.resets.keys[t].expiresAt;
            && (live ==> answer == if s.stores.resets.keys[t].value.user in s.users then Ok else NotFound)
            && (!live ==> answer == Unauthorized && after == s)
  {
    assert t in s.stores.resets.keys ==> s.stores.resets.keys[t].value.Owner?;
  }

  lemma ResetWorksUntil(c: Config, s: State, t: Token, u: UserId, until: int, ops: seq<Op>)
    requires Inv(c, s) && t in s.stores.resets.keys && s.stores.resets.keys[t] == Entry(Owner(u), until)
    ensures var end := Run(c, s, ops);
            var (after, answer) := Execute(c, end, ConfirmReset(t));
            if end.now < until && ConfirmReset(t) !in ops then answer == if u in end.users then Ok else NotFound
            else answer == Unauthorized && after == end
  {
    ResetKeyRun(c, s, ops, t, u, until);
    RunKeepsInv(c, s, ops);
    ConfirmAnswers(c, Run(c, s, ops), t);
  }

  /** When a reset token works, over every run: until its lifetime has passed since it was asked for, if nobody has
    tried to confirm with it and the account still exists. After that it is refused and nothing changes. */
  lemma ResetWorksIff(c: Config, s: State, before: seq<Op>, u: UserId, between: seq<Op>)
    requires c.Valid() && Initial(s) && u in Run(c, s, before).users
    ensures var asked := Run(c, s, before);
            var t := asked.next;
            var later := Run(c, Execute(c, asked, RequestReset(u)).0, between);
            var (after, answer) := Execute(c, later, ConfirmReset(t));
            && (answer == Ok <==>
                  later.now < asked.now + c.resetTtl && ConfirmReset(t) !in between && u in later.users)
            && (answer == NotFound <==>
                  later.now < asked.now + c.resetTtl && ConfirmReset(t) !in between && u !in later.users)
            && (answer != Ok && answer != NotFound ==> answer == Unauthorized && after == later)
  {
    InitialInv(c, s);
    RunKeepsInv(c, s, before);
    var asked := Run(c, s, before);
    var s1 := Execute(c, asked, RequestReset(u)).0;
    ExecuteKeepsInv(c, asked, RequestReset(u));
    ResetWorksUntil(c, s1, asked.next, u, asked.now + c.resetTtl, between);
  }

  /** A request for a reset is answered alike whether the account is there or not, and draws a token only if it is. */
  lemma ResetRequestsLookAlike(c: Config, s: State, u: UserId)
    ensures Execute(c, s, RequestReset(u)).1 == Ok
    ensures u !in s.users ==> Execute(c, s, RequestReset(u)).0 == s
    ensures u in s.users ==> s.next in Execute(c, s, RequestReset(u)).0.resetIssued
  {
  }

  /** A token that no request for a reset has drawn resets nothing. */
  lemma UnknownResetTokens(c: Config, s: State, ops: seq<Op>, t: Token)
    requires c.Valid() && Initial(s) && t !in Run(c, s, ops).resetIssued
    ensures Execute(c, Run(c, s, ops), ConfirmReset(t)) == (Run(c, s, ops), Unauthorized)
  {
    InitialInv(c, s);
    RunKeepsInv(c, s, ops);
    ConfirmAnswers(c, Run(c, s, ops), t);
  }

  // ---------------------------------------------------------------------------------------------
  // How long tokens live

  // The steps after which a live refresh token is live no more, whatever the time.
  predicate Ends(c: Config, s: State, op: Op, t: Token)
    requires t in s.issued
  {
    Deletes(c, s, op, t) || (op == Refresh(t) && s.issued[t] in s.users)
  }

  predicate Unended(c: Config, s: State, ops: seq<Op>, t: Token)
    decreases |ops|
  {
    ops == [] || (t in s.issued && !Ends(c, s, ops[0], t) && Unended(c, Execute(c, s, ops[0]).0, ops[1..], t))
  }

  predicate OwnedUntil(s: State, t: Token, until: int) {
    t in s.issued && t in s.stores.refresh.keys && s.stores.refresh.keys[t] == Entry(Owner(s.issued[t]), until)
  }

  lemma OwnedKept(c: Config, s: State, op: Op, t: Token, until: int)
    requires Inv(c, s) && OwnedUntil(s, t, until) && s.now < until && !Ends(c, s, op, t)
    ensures OwnedUntil(Execute(c, s, op).0, t, until)
  {
    assert t < s.next;
    match op
    case Login(u) =>
    case Refresh(x) =>
      if Lookup(s.stores.refresh, x, s.now).Some? && s.stores.refresh.keys[x].value.Used? {
        OthersKept(s, s.stores.refresh.keys[x].value.user, t);
      }
    case ConfirmReset(x) =>
      ConfirmIs(c, s, x);
      var who := Consume(s.stores.resets, x, s.now).1;
      if who.User? { OthersKept(s, who.id, t); }
    case ChangePassword(u) => OthersKept(s, u, t);
    case _ =>
  }

  lemma EndedIsOver(c: Config, s: State, op: Op, t: Token, until: int)
    requires Inv(c, s) && OwnedUntil(s, t, until) && s.now < until && Ends(c, s, op, t)
    ensures Rank(StageOf(Execute(c, s, op).0, t)) >= 2
  {
    if op == Refresh(t) {
      RefreshAnswers(c, s, t);
    } else if RevokesRefresh(c, s, op, s.issued[t]) {
      RevokeStepRemoves(c, s, op, s.issued[t], t);
    }
  }

  lemma {:induction false} OwnedRun(c: Config, s: State, ops: seq<Op>, t: Token, until: int)
    requires Inv(c, s) && OwnedUntil(s, t, until) && Run(c, s, ops).now < until
    ensures if Unended(c, s, ops, t) then OwnedUntil(Run(c, s, ops), t, until)
            else Rank(StageOf(Run(c, s, ops), t)) >= 2
    decreases |ops|
  {
    NowOnlyAdvances(c, s, ops);
    if ops != [] {
      var s1 := Execute(c, s, ops[0]).0;
      ExecuteKeepsInv(c, s, ops[0]);
      if Ends(c, s, ops[0], t) {
        EndedIsOver(c, s, ops[0], t, until);
        StageNeverReturns(c, s1, ops[1..], t);
      } else {
        OwnedKept(c, s, ops[0], t, until);
        OwnedRun(c, s1, ops[1..], t, until);
      }
    }
  }

  // A token that was live until `until` at the latest is not live from then on.
  predicate OverBy(s: State, t: Token, until: int) {
    t in s.issued && (StageOf(s, t) == Live ==> s.stores.refresh.keys[t].expiresAt <= until)
  }

  lemma {:induction false} OverRun(c: Config, s: State, ops: seq<Op>, t: Token, until: int)
    requires Inv(c, s) && OverBy(s, t, until)
    ensures OverBy(Run(c, s, ops), t, until)
    decreases |ops|
  {
    if ops != [] {
      ExecuteKeepsInv(c, s, ops[0]);
      IssuedKeyStep(c, s, ops[0], t);
      OverRun(c, Execute(c, s, ops[0]).0, ops[1..], t, until);
    }
  }

  lemma {:induction false} IssuedStays(c: Config, s: State, ops: seq<Op>, t: Token)
    requires Inv(c, s) && t in s.issued
    ensures t in Run(c, s, ops).issued && Run(c, s, ops).issued[t] == s.issued[t]
    decreases |ops|
  {
    if ops != [] {
      ExecuteKeepsInv(c, s, ops[0]);
      IssuedKeyStep(c, s, ops[0], t);
      IssuedStays(c, Execute(c, s, ops[0]).0, ops[1..], t);
    }
  }

  lemma LivesUntil(c: Config, s: State, t: Token, until: int, ops: seq<Op>)
    requires Inv(c, s) && OwnedUntil(s, t, until)
    ensures StageOf(Run(c, s, ops), t) == Live <==> Run(c, s, ops).now < until && Unended(c, s, ops, t)
    ensures t in Run(c, s, ops).issued && Run(c, s, ops).issued[t] == s.issued[t]
  {
    OverRun(c, s, ops, t, until);
    IssuedStays(c, s, ops, t);
    if Run(c, s, ops).now < until {
      OwnedRun(c, s, ops, t, until);
    }
  }

  lemma RedeemableUntil(c: Config, s: State, t: Token, until: int, ops: seq<Op>)
    requires Inv(c, s) && OwnedUntil(s, t, until)
    ensures var end := Run(c, s, ops);
            Execute(c, end, Refresh(t)).1.Pair? <==>
              end.now < until && Unended(c, s, ops, t) && s.issued[t] in end.users
  {
    RunKeepsInv(c, s, ops);
    LivesUntil(c, s, t, until, ops);
    RefreshAnswers(c, Run(c, s, ops), t);
  }

  lemma HandedOut(c: Config, s: State, op: Op)
    requires Inv(c, s) && (op.Login? || op.Refresh?) && Execute(c, s, op).1.Pair?
    ensures var (s1, answer) := Execute(c, s, op);
            && s1.now == s.now && OwnedUntil(s1, answer.refresh, s.now + c.refreshTtl)
            && answer.access.jti in s1.access && s1.access[answer.access.jti] == answer.access
            && answer.access.exp == s.now + c.accessTtl && answer.access.jti !in s1.stores.revocations.keys
  {
    assert s.next !in s.access && s.next !in s.stores.revocations.keys;
  }

  /** How long a refresh token can be redeemed, from the login or refresh that handed it out: for its lifetime, unless
    it has been redeemed, the user's sessions revoked, or it has been logged out. */
  lemma RefreshTokenLivesIff(c: Config, s: State, before: seq<Op>, op: Op, between: seq<Op>)
    requires c.Valid() && Initial(s) && (op.Login? || op.Refresh?) && Execute(c, Run(c, s, before), op).1.Pair?
    ensures var (s1, answer) := Execute(c, Run(c, s, before), op);
            var end := Run(c, s1, between);
            && answer.refresh in s1.issued
            && (Execute(c, end, Refresh(answer.refresh)).1.Pair? <==>
                  && end.now < s1.now + c.refreshTtl
                  && Unended(c, s1, between, answer.refresh)
                  && s1.issued[answer.refresh] in end.users)
  {
    InitialInv(c, s);
    RunKeepsInv(c, s, before);
    var s0 := Run(c, s, before);
    HandedOut(c, s0, op);
    ExecuteKeepsInv(c, s0, op);
    RedeemableUntil(c, Execute(c, s0, op).0, Execute(c, s0, op).1.refresh, s0.now + c.refreshTtl, between);
  }

  // The steps that revoke an access token.
  predicate Bars(c: Config, s: State, op: Op, j: Token)
    requires j in s.access
  {
    match op
    case Logout(_, jti) => jti == j && Accepts(s, s.access[j])
    case _ => RevokesAccess(c, s, op, s.access[j].user)
  }

  predicate Unbarred(c: Config, s: State, ops: seq<Op>, j: Token)
    decreases |ops|
  {
    ops == [] || (j in s.access && !Bars(c, s, ops[0], j) && Unbarred(c, Execute(c, s, ops[0]).0, ops[1..], j))
  }

  lemma UnbarredStep(c: Config, s: State, op: Op, j: Token)
    requires Inv(c, s) && c.accessTtl <= 86_400 && j in s.access && j !in s.stores.revocations.keys
    ensures if Bars(c, s, op, j) then Barred(Execute(c, s, op).0, s.access[j])
            else j !in Execute(c, s, op).0.stores.revocations.keys
  {
    assert j < s.next && s.access[j].exp <= s.now + c.accessTtl;
    if RevokesAccess(c, s, op, s.access[j].user) {
      RevokeStepBars(c, s, op, s.access[j].user, j);
    } else if op.ConfirmReset? {
      ConfirmIs(c, s, op.t);
    }
  }

  lemma {:induction false} UnbarredRun(c: Config, s: State, ops: seq<Op>, j: Token)
    requires Inv(c, s) && c.accessTtl <= 86_400 && j in s.access && j !in s.stores.revocations.keys
    ensures if Unbarred(c, s, ops, j) then j !in Run(c, s, ops).stores.revocations.keys
            else Barred(Run(c, s, ops), s.access[j])
    decreases |ops|
  {
    if ops != [] {
      var s1 := Execute(c, s, ops[0]).0;
      ExecuteKeepsInv(c, s, ops[0]);
      RevokedKeyStep(c, s, ops[0], j);
      UnbarredStep(c, s, ops[0], j);
      if Bars(c, s, ops[0], j) {
        BarredForever(c, s1, ops[1..], j, s.access[j]);
      } else {
        UnbarredRun(c, s1, ops[1..], j);
      }
    }
  }

  lemma LetInUntil(c: Config, s: State, a: Access, ops: seq<Op>)
    requires Inv(c, s) && c.accessTtl <= 86_400 && a.jti !in s.stores.revocations.keys
    requires a.jti in s.access && s.access[a.jti] == a
    ensures Accepts(Run(c, s, ops), a) <==>
      Run(c, s, ops).now < a.exp && Unbarred(c, s, ops, a.jti) && a.user in Run(c, s, ops).users
  {
    UnbarredRun(c, s, ops, a.jti);
  }

  /** How long an access token is let in, from the login or refresh that handed it out: for its lifetime, if that is
    a day at most, unless it has been logged out or revoked with the user's sessions. */
  lemma AccessTokenLivesIff(c: Config, s: State, before: seq<Op>, op: Op, between: seq<Op>)
    requires c.Valid() && c.accessTtl <= 86_400 && Initial(s)
    requires (op.Login? || op.Refresh?) && Execute(c, Run(c, s, before), op).1.Pair?
    ensures var (s1, answer) := Execute(c, Run(c, s, before), op);
            var end := Run(c, s1, between);
            && answer.access.jti in s1.access && s1.access[answer.access.jti] == answer.access
            && (Accepts(end, answer.access) <==>
                  && end.now < s1.now + c.accessTtl
                  && Unbarred(c, s1, between, answer.access.jti)
                  && answer.access.user in end.users)
  {
    InitialInv(c, s);
    RunKeepsInv(c, s, before);
    var s0 := Run(c, s, before);
    HandedOut(c, s0, op);
    ExecuteKeepsInv(c, s0, op);
    LetInUntil(c, Execute(c, s0, op).0, Execute(c, s0, op).1.access, between);
  }
}
