/** The token store over Redis: keys with a time to live, and per user two sets of ids (refresh tokens, and
  the `jti` of access tokens) that share one time to live each.

  `Store` is the content of one store as a value; the class `TokenStore` is the object whose methods change
  it in place. A key or a set is gone from the instant its time is up. */
module TokenStores {
  import opened Options

  type Token = nat
  type UserId = nat

  // Stored text: the owner's id, the owner's id behind "used:", or "revoked".
  datatype Value = Owner(user: UserId) | Used(user: UserId) | Revoked

  datatype Entry = Entry(value: Value, expiresAt: int)
  datatype Index = Index(members: set<Token>, expiresAt: int)
  datatype Store = Store(keys: map<Token, Entry>, byUser: map<UserId, Index>, accessByUser: map<UserId, Index>)

  const EMPTY := Store(map[], map[], map[])
  const DAY := 24 * 60 * 60
  const USED_TTL := 60

  function Min(a: int, b: int): int { if a <= b then a else b }

  function Lookup(s: Store, t: Token, now: int): Option<Value> {
    if t in s.keys && now < s.keys[t].expiresAt then Some(s.keys[t].value) else None
  }

  function SetKey(s: Store, t: Token, v: Value, ttl: int, now: int): Store {
    s.(keys := s.keys[t := Entry(v, now + ttl)])
  }

  function DeleteKey(s: Store, t: Token): Store { s.(keys := s.keys - {t}) }

  function Members(ix: map<UserId, Index>, u: UserId, now: int): set<Token> {
    if u in ix && now < ix[u].expiresAt then ix[u].members else {}
  }

  // Add to the set, then give the whole set a new time to live.
  function Track(ix: map<UserId, Index>, u: UserId, t: Token, ttl: int, now: int): map<UserId, Index> {
    ix[u := Index(Members(ix, u, now) + {t}, now + ttl)]
  }

  function AddRefresh(s: Store, u: UserId, t: Token, ttl: int, now: int): Store {
    var s1 := SetKey(s, t, Owner(u), ttl, now);
    s1.(byUser := Track(s1.byUser, u, t, ttl, now))
  }

  function Rotate(s: Store, prior: Token, u: UserId, t: Token, ttl: int, now: int): Store {
    AddRefresh(SetKey(s, prior, Used(u), Min(USED_TTL, ttl), now), u, t, ttl, now)
  }

  function RevokeAll(s: Store, u: UserId, now: int): Store {
    s.(keys := s.keys - Members(s.byUser, u, now))
  }

  function TrackAccess(s: Store, u: UserId, jti: Token, ttl: int, now: int): Store {
    s.(accessByUser := Track(s.accessByUser, u, jti, ttl, now))
  }

  // `ttl_seconds or 24h`: no argument and zero both mean a day.
  function RevokeJti(s: Store, jti: Token, ttl: Option<int>, now: int): Store {
    SetKey(s, jti, Revoked, if ttl == None || ttl == Some(0) then DAY else ttl.value, now)
  }

  predicate IsRevoked(s: Store, jti: Token, now: int) { Lookup(s, jti, now) == Some(Revoked) }

  function RevokeAllAccess(s: Store, u: UserId, now: int): Store {
    s.(keys := s.keys + map t | t in Members(s.accessByUser, u, now) :: Entry(Revoked, now + DAY))
  }

  // The stored text "revoked" is not a number: reading it as a user id raises, after the delete.
  datatype Consumed = Nobody | User(id: UserId) | Raised

  function Consume(s: Store, t: Token, now: int): (Store, Consumed) {
    match Lookup(s, t, now)
    case None => (s, Nobody)
    case Some(Used(_)) => (s, Nobody)
    case Some(Owner(u)) => (DeleteKey(s, t), User(u))
    case Some(Revoked) => (DeleteKey(s, t), Raised)
  }

  // ---------------------------------------------------------------------------------------------

  class TokenStore {
    var keys: map<Token, Entry>
    var byUser: map<UserId, Index>
    var accessByUser: map<UserId, Index>

    ghost function View(): Store
      reads this
    {
      Store(keys, byUser, accessByUser)
    }

    constructor ()
      ensures View() == EMPTY
    {
      keys, byUser, accessByUser := map[], map[], map[];
    }

    method Set(t: Token, v: Value, ttl: int, now: int)
      modifies this`keys
      ensures View() == SetKey(old(View()), t, v, ttl, now)
    {
      keys := keys[t := Entry(v, now + ttl)];
    }

    method Get(t: Token, now: int) returns (v: Option<Value>)
      ensures v == Lookup(View(), t, now)
    {
      if t in keys && now < keys[t].expiresAt { v := Some(keys[t].value); } else { v := None; }
    }

    method Delete(t: Token)
      modifies this`keys
      ensures View() == DeleteKey(old(View()), t)
    {
      keys := keys - {t};
    }

    method TrackForUser(u: UserId, t: Token, ttl: int, now: int)
      modifies this`byUser
      ensures View() == old(View()).(byUser := Track(old(byUser), u, t, ttl, now))
    {
      var members := if u in byUser && now < byUser[u].expiresAt then byUser[u].members else {};
      byUser := byUser[u := Index(members + {t}, now + ttl)];
    }

    method AddRefreshToken(u: UserId, ttl: int, now: int, newToken: Token) returns (t: Token)
      modifies this
      ensures t == newToken && View() == AddRefresh(old(View()), u, newToken, ttl, now)
    {
      t := newToken;
      Set(t, Owner(u), ttl, now);
      TrackForUser(u, t, ttl, now);
    }

    method RotateRefreshToken(oldToken: Token, u: UserId, ttl: int, now: int, newToken: Token) returns (t: Token)
      modifies this
      ensures t == newToken && View() == Rotate(old(View()), oldToken, u, newToken, ttl, now)
    {
      var usedTtl := if ttl < 60 then ttl else 60;
      Set(oldToken, Used(u), usedTtl, now);
      t := AddRefreshToken(u, ttl, now, newToken);
    }

    method AddPasswordResetToken(u: UserId, ttl: int, now: int, newToken: Token) returns (t: Token)
      modifies this
      ensures t == newToken && View() == SetKey(old(View()), newToken, Owner(u), ttl, now)
    {
      t := newToken;
      Set(t, Owner(u), ttl, now);
    }

    method ConsumePasswordResetToken(t: Token, now: int) returns (r: Consumed)
      modifies this
      ensures (View(), r) == Consume(old(View()), t, now)
      ensures r.Nobody? <==>
        t !in old(keys) || old(keys)[t].expiresAt <= now || old(keys)[t].value.Used?
      ensures r.User? ==> old(keys)[t].value == Owner(r.id)
      ensures keys == if r.Nobody? then old(keys) else old(keys) - {t}
    {
      var value := Get(t, now);
      if value.None? || value.value.Used? { return Nobody; }
      Delete(t);
      r := if value.value.Owner? then User(value.value.user) else Raised;
    }

    method RevokeAccess(jti: Token, ttl: Option<int>, now: int)
      modifies this
      ensures View() == RevokeJti(old(View()), jti, ttl, now)
      ensures keys == old(keys)[jti := Entry(Revoked, now + if ttl.None? || ttl.value == 0 then 86_400 else ttl.value)]
    {
      var seconds := if ttl.Some? && ttl.value != 0 then ttl.value else DAY;
      Set(jti, Revoked, seconds, now);
    }

    // Deletes the members one by one.
    method RevokeAllForUser(u: UserId, now: int)
      modifies this
      ensures View() == RevokeAll(old(View()), u, now)
      ensures keys ==
        if u in byUser && now < byUser[u].expiresAt then old(keys) - byUser[u].members else old(keys)
    {
      var tokens := if u in byUser && now < byUser[u].expiresAt then byUser[u].members else {};
      var todo := tokens;
      while todo != {}
        invariant todo <= tokens
        invariant keys == old(keys) - (tokens - todo)
        invariant byUser == old(byUser) && accessByUser == old(accessByUser)
        decreases |todo|
      {
        var t :| t in todo;
        Delete(t);
        todo := todo - {t};
      }
    }

    method TrackAccessToken(u: UserId, jti: Token, ttl: int, now: int)
      modifies this`accessByUser
      ensures View() == TrackAccess(old(View()), u, jti, ttl, now)
    {
      var members := if u in accessByUser && now < accessByUser[u].expiresAt then accessByUser[u].members else {};
      accessByUser := accessByUser[u := Index(members + {jti}, now + ttl)];
    }

    // Marks the members one by one.
    method RevokeAllAccessTokensForUser(u: UserId, now: int)
      modifies this
      ensures View() == RevokeAllAccess(old(View()), u, now)
    {
      var jtis := if u in accessByUser && now < accessByUser[u].expiresAt then accessByUser[u].members else {};
      var todo := jtis;
      while todo != {}
        invariant todo <= jtis
        invariant keys == old(keys) + map t | t in jtis - todo :: Entry(Revoked, now + DAY)
        invariant byUser == old(byUser) && accessByUser == old(accessByUser)
        decreases |todo|
      {
        var t :| t in todo;
        RevokeAccess(t, None, now);
        todo := todo - {t};
      }
    }
  }

  // ---------------------------------------------------------------------------------------------
  // What the index of a user is for

  function HolderOf(v: Value): Option<UserId> {
    match v case Owner(u) => Some(u) case Used(u) => Some(u) case Revoked => None
  }

  // A live key of `u`, used markers counted in or not.
  predicate MustCover(s: Store, t: Token, u: UserId, now: int, markers: bool) {
    && t in s.keys && now < s.keys[t].expiresAt && HolderOf(s.keys[t].value) == Some(u)
    && (markers || s.keys[t].value.Owner?)
  }

  // The index of `u` lists every such key, and does not expire before any of them.
  ghost predicate CoversKeys(s: Store, u: UserId, now: int, markers: bool) {
    forall t :: MustCover(s, t, u, now, markers) ==>
      u in s.byUser && t in s.byUser[u].members && s.keys[t].expiresAt <= s.byUser[u].expiresAt
  }

  ghost predicate Covers(s: Store, u: UserId, now: int) { CoversKeys(s, u, now, true) }

  /** `revoke_all_for_user` leaves no live key of a covered user, and no other key is touched. */
  lemma RevokeAllRemoves(s: Store, u: UserId, now: int, t: Token)
    requires Covers(s, u, now)
    ensures Lookup(RevokeAll(s, u, now), t, now) ==
      (if t in Members(s.byUser, u, now) then None else Lookup(s, t, now))
    ensures Lookup(RevokeAll(s, u, now), t, now).Some? ==>
      HolderOf(Lookup(RevokeAll(s, u, now), t, now).value) != Some(u)
  {
    if Lookup(s, t, now).Some? && HolderOf(s.keys[t].value) == Some(u) {
      assert t in Members(s.byUser, u, now);
    }
  }

  /** Issuing a token keeps the cover exactly when the new expiry of the set is not earlier than that of any
    live key of the user: a time to live that shrinks between two logins breaks it, a constant one never. */
  lemma AddRefreshCoversIff(s: Store, u: UserId, t: Token, ttl: int, now: int)
    requires Covers(s, u, now) && 0 < ttl && t !in s.keys
    ensures Covers(AddRefresh(s, u, t, ttl, now), u, now) <==>
      forall k :: k in s.keys && now < s.keys[k].expiresAt && HolderOf(s.keys[k].value) == Some(u) ==>
        s.keys[k].expiresAt <= now + ttl
  {
    var s' := AddRefresh(s, u, t, ttl, now);
    forall k | k in s.keys && now < s.keys[k].expiresAt && HolderOf(s.keys[k].value) == Some(u)
      ensures s'.keys[k] == s.keys[k] && k in s'.byUser[u].members
    {
      assert k in Members(s.byUser, u, now);
    }
  }

  /** A refresh token outlives a revoke-all when the configured time to live was lowered after it was issued. */
  lemma ShrinkingTtlEscapesRevokeAll()
    ensures var s := AddRefresh(AddRefresh(EMPTY, 7, 1, 1000, 0), 7, 2, 10, 0);
            Covers(AddRefresh(EMPTY, 7, 1, 1000, 0), 7, 0)
            && Lookup(RevokeAll(s, 7, 500), 1, 500) == Some(Owner(7))
  {
    var s := AddRefresh(AddRefresh(EMPTY, 7, 1, 1000, 0), 7, 2, 10, 0);
    assert s.byUser[7].expiresAt == 10;
    assert s.keys[1] == Entry(Owner(7), 1000);
  }
}
