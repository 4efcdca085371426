/** Role-based permissions and the rule that nobody hands out a permission they do not have. */
module Rbac {
  import opened Options
  import opened Sets

  datatype User = User(isSuperuser: bool, direct: set<string>)

  // The permission table gives each id its key; the two link tables are sets of rows.
  datatype State = State(
    users: map<nat, User>,
    roles: set<nat>,
    permissions: map<nat, string>,
    userRoles: set<(nat, nat)>,
    rolePermissions: set<(nat, nat)>,
    adminRole: Option<nat>)

  // Rows of the link tables that match: foreign keys and unique permission keys hold.
  predicate Consistent(s: State) {
    && (forall x, y :: x in s.permissions && y in s.permissions && s.permissions[x] == s.permissions[y] ==> x == y)
    && (forall x :: x in s.rolePermissions ==> x.0 in s.roles && x.1 in s.permissions)
    && (forall x :: x in s.userRoles ==> x.0 in s.users && x.1 in s.roles)
  }

  // A query that expects one row raises when it finds two.
  datatype Answer = Yes | No | Raises

  // What the user holds by right: directly, or through some role.
  predicate Holds(s: State, u: nat, key: string) {
    u in s.users && (key in s.users[u].direct || exists r :: r in s.roles && GrantedBy(s, u, key, r))
  }

  predicate GrantedBy(s: State, u: nat, key: string, r: nat) {
    (u, r) in s.userRoles && exists p :: p in s.permissions && s.permissions[p] == key && (r, p) in s.rolePermissions
  }

  // The rows of the join in `user_has_permission`.
  function GrantRows(s: State, u: nat, key: string): set<(nat, nat)> {
    set x | x in s.rolePermissions && (u, x.0) in s.userRoles && x.1 in s.permissions && s.permissions[x.1] == key
  }

  // `user_has_permission`, for a bearer of an access token.
  function HasPermission(s: State, u: nat, key: string): Answer
    requires u in s.users
  {
    if s.users[u].isSuperuser then Yes
    else if key in s.users[u].direct then Yes
    else
      var n := |GrantRows(s, u, key)|;
      if n == 0 then No else if n == 1 then Yes else Raises
  }

  // The roles through which the user holds the key.
  function Granting(s: State, u: nat, key: string): set<nat> { set r | r in s.roles && GrantedBy(s, u, key, r) }

  // Each granting role accounts for one row of the join.
  lemma RowsAreRoles(s: State, u: nat, key: string)
    requires Consistent(s)
    ensures forall x :: x in GrantRows(s, u, key) ==> x.0 in Granting(s, u, key)
    ensures forall r :: r in Granting(s, u, key) ==> exists x :: x in GrantRows(s, u, key) && x.0 == r
    ensures forall x, y :: x in GrantRows(s, u, key) && y in GrantRows(s, u, key) && x.0 == y.0 ==> x == y
  {
    forall r | r in Granting(s, u, key) ensures exists x :: x in GrantRows(s, u, key) && x.0 == r {
      var p :| p in s.permissions && s.permissions[p] == key && (r, p) in s.rolePermissions;
      assert (r, p) in GrantRows(s, u, key);
    }
  }

  /** What the answers mean: for anyone but a superuser, yes is a direct permission or exactly one granting
    role, an exception is two granting roles, no is neither. So a yes is always a permission held, but a
    permission held can raise. */
  lemma HasPermissionMeans(s: State, u: nat, key: string)
    requires Consistent(s) && u in s.users && !s.users[u].isSuperuser && key !in s.users[u].direct
    ensures HasPermission(s, u, key) == Yes <==> exists r :: Granting(s, u, key) == {r}
    ensures HasPermission(s, u, key) == Raises <==>
      exists r, q :: r != q && r in Granting(s, u, key) && q in Granting(s, u, key)
    ensures HasPermission(s, u, key) == No <==> !Holds(s, u, key)
  {
    RowsAreRoles(s, u, key);
    var rs := Granting(s, u, key);
    SameSize(GrantRows(s, u, key), rs, (x: (nat, nat)) => x.0);
    assert rs == {} <==> !Holds(s, u, key);
    SizeTells(rs);
  }

  lemma YesIsHeld(s: State, u: nat, key: string)
    requires Consistent(s) && u in s.users && !s.users[u].isSuperuser && HasPermission(s, u, key) == Yes
    ensures Holds(s, u, key)
  {
    if key !in s.users[u].direct {
      HasPermissionMeans(s, u, key);
    }
  }

  // ---------------------------------------------------------------------------------------------
  // The service

  datatype Outcome = Done | Denied | Raised | IntegrityError

  function KeysOf(s: State, ids: seq<nat>): set<string> {
    set p | p in ids && p in s.permissions :: s.permissions[p]
  }

  function RoleKeys(s: State, roleIds: seq<nat>): set<string> {
    set x | x in s.rolePermissions && x.0 in roleIds && x.1 in s.permissions :: s.permissions[x.1]
  }

  predicate MayGrant(s: State, actor: nat, keys: set<string>)
    requires actor in s.users
  {
    s.users[actor].isSuperuser || forall k :: k in keys ==> HasPermission(s, actor, k) == Yes
  }

  predicate NoDuplicates(ids: seq<nat>) { forall i, j :: 0 <= i < j < |ids| ==> ids[i] != ids[j] }

  function SetRolePermissions(s: State, role: nat, ids: seq<nat>): State {
    s.(rolePermissions := (set x | x in s.rolePermissions && x.0 != role) + set p | p in ids :: (role, p))
  }

  function AssignRoles(s: State, user: nat, roleIds: seq<nat>): State {
    s.(userRoles := (set x | x in s.userRoles && x.0 != user) + set r | r in roleIds :: (user, r))
  }

  class RbacService {
    var db: State

    constructor (db: State)
      ensures this.db == db
    {
      this.db := db;
    }

    // Asks key by key, in no particular order, and stops at the first that is not a yes.
    method UserHasAll(actor: nat, keys: set<string>) returns (answer: Answer)
      requires actor in db.users
      ensures answer == Yes <==> forall k :: k in keys ==> HasPermission(db, actor, k) == Yes
      ensures answer != Yes ==> exists k :: k in keys && HasPermission(db, actor, k) == answer
    {
      var todo := keys;
      while todo != {}
        invariant todo <= keys
        invariant forall k :: k in keys - todo ==> HasPermission(db, actor, k) == Yes
        decreases |todo|
      {
        var k :| k in todo;
        if db.users[actor].isSuperuser || k in db.users[actor].direct {
          todo := todo - {k};
        } else {
          var rows := GrantRows(db, actor, k);
          if |rows| == 0 { return No; }
          if |rows| > 1 { return Raises; }
          todo := todo - {k};
        }
      }
      return Yes;
    }

    method ValidateScope(actor: nat, keys: set<string>) returns (outcome: Outcome)
      requires actor in db.users
      ensures outcome == Done <==> MayGrant(db, actor, keys)
      ensures outcome == Denied ==> exists k :: k in keys && HasPermission(db, actor, k) == No
      ensures outcome == Raised ==> exists k :: k in keys && HasPermission(db, actor, k) == Raises
      ensures outcome != IntegrityError
    {
      if db.users[actor].isSuperuser { return Done; }
      if keys == {} { return Done; }
      var answer := UserHasAll(actor, keys);
      match answer
      case Yes => return Done;
      case No => return Denied;
      case Raises => return Raised;
    }

    // Rows are deleted, then added one by one; the commit fails on a repeated row or a dangling id.
    method SetRolePermissionsAs(actor: nat, role: nat, ids: seq<nat>) returns (outcome: Outcome)
      requires actor in db.users
      modifies this
      ensures outcome == Done <==>
        MayGrant(old(db), actor, KeysOf(old(db), ids)) && NoDuplicates(ids) && (ids != [] ==> role in old(db).roles)
        && forall p :: p in ids ==> p in old(db).permissions
      ensures db == if outcome == Done then SetRolePermissions(old(db), role, ids) else old(db)
    {
      outcome := ValidateScope(actor, KeysOf(db, ids));
      if outcome != Done { return; }
      var before := db;
      db := db.(rolePermissions := set x | x in db.rolePermissions && x.0 != role);
      var i := 0;
      while i < |ids|
        invariant 0 <= i <= |ids|
        invariant db == before.(rolePermissions :=
          (set x | x in before.rolePermissions && x.0 != role) + set p | p in ids[..i] :: (role, p))
        invariant NoDuplicates(ids[..i]) && (i > 0 ==> role in before.roles)
        invariant forall p :: p in ids[..i] ==> p in before.permissions
      {
        var p := ids[i];
        if (role, p) in db.rolePermissions || role !in db.roles || p !in db.permissions {
          assert (role, p) in db.rolePermissions ==> p in ids[..i];
          assert p in ids;
          db := before;
          return IntegrityError;
        }
        assert p !in ids[..i];
        assert ids[..i + 1] == ids[..i] + [p];
        db := db.(rolePermissions := db.rolePermissions + {(role, p)});
        i := i + 1;
      }
      assert ids[..i] == ids;
    }

    method AssignRolesAs(actor: nat, user: nat, roleIds: seq<nat>) returns (outcome: Outcome)
      requires actor in db.users
      modifies this
      ensures outcome == Done <==>
        MayGrant(old(db), actor, RoleKeys(old(db), roleIds)) && NoDuplicates(roleIds)
        && (roleIds != [] ==> user in old(db).users) && forall r :: r in roleIds ==> r in old(db).roles
      ensures db == if outcome == Done then AssignRoles(old(db), user, roleIds) else old(db)
    {
      outcome := ValidateScope(actor, RoleKeys(db, roleIds));
      if outcome != Done { return; }
      var before := db;
      db := db.(userRoles := set x | x in db.userRoles && x.0 != user);
      var i := 0;
      while i < |roleIds|
        invariant 0 <= i <= |roleIds|
        invariant db == before.(userRoles :=
          (set x | x in before.userRoles && x.0 != user) + set r | r in roleIds[..i] :: (user, r))
        invariant NoDuplicates(roleIds[..i]) && (i > 0 ==> user in before.users)
        invariant forall r :: r in roleIds[..i] ==> r in before.roles
      {
        var r := roleIds[i];
        if (user, r) in db.userRoles || user !in db.users || r !in db.roles {
          assert (user, r) in db.userRoles ==> r in roleIds[..i];
          assert r in roleIds;
          db := before;
          return IntegrityError;
        }
        assert r !in roleIds[..i];
        assert roleIds[..i + 1] == roleIds[..i] + [r];
        db := db.(userRoles := db.userRoles + {(user, r)});
        i := i + 1;
      }
      assert roleIds[..i] == roleIds;
    }
  }

  // ---------------------------------------------------------------------------------------------
  // Runs of the two endpoints

  const RBAC_MANAGE := "rbac.manage"

  datatype Step =
    | Grant(actor: nat, role: nat, ids: seq<nat>)
    | Assign(actor: nat, user: nat, roleIds: seq<nat>)

  // `ensure_admins_remain(user_id=…)`: refuses a user whose one role is the admin role.
  predicate OnlyAdmin(s: State, u: nat) {
    s.adminRole.Some? && (set x | x in s.userRoles && x.0 == u) == {(u, s.adminRole.value)}
  }

  predicate Succeeds(s: State, st: Step) {
    && st.actor in s.users && HasPermission(s, st.actor, RBAC_MANAGE) == Yes
    && match st
       case Grant(a, role, ids) =>
         MayGrant(s, a, KeysOf(s, ids)) && NoDuplicates(ids) && (ids != [] ==> role in s.roles)
         && forall p :: p in ids ==> p in s.permissions
       case Assign(a, user, roleIds) =>
         !OnlyAdmin(s, user) && MayGrant(s, a, RoleKeys(s, roleIds)) && NoDuplicates(roleIds)
         && (roleIds != [] ==> user in s.users) && forall r :: r in roleIds ==> r in s.roles
  }

  // A request that fails at any point is rolled back.
  function Apply(s: State, st: Step): State {
    if !Succeeds(s, st) then s
    else match st
         case Grant(_, role, ids) => SetRolePermissions(s, role, ids)
         case Assign(_, user, roleIds) => AssignRoles(s, user, roleIds)
  }

  function Run(s: State, steps: seq<Step>): State
    decreases |steps|
  {
    if steps == [] then s else Run(Apply(s, steps[0]), steps[1..])
  }

  predicate Ordinary(s: State, u: nat) { u in s.users && !s.users[u].isSuperuser }

  lemma ApplyKeepsConsistent(s: State, st: Step)
    requires Consistent(s)
    ensures Consistent(Apply(s, st)) && Apply(s, st).users == s.users
  {
  }

  lemma OnlyAdminMeans(s: State, u: nat)
    ensures OnlyAdmin(s, u) <==>
      s.adminRole.Some? && forall r :: (u, r) in s.userRoles <==> r == s.adminRole.value
  {
    var rows := set x | x in s.userRoles && x.0 == u;
    forall r: nat ensures (u, r) in rows <==> (u, r) in s.userRoles { }
    if s.adminRole.Some? && forall r :: (u, r) in s.userRoles <==> r == s.adminRole.value {
      forall x: (nat, nat) ensures x in rows <==> x == (u, s.adminRole.value) {
        assert x == (x.0, x.1);
      }
    }
  }

  // A permission that the query answers with yes: by being a superuser, directly, or through exactly one role.
  ghost predicate MayUse(s: State, u: nat, key: string) {
    u in s.users && (s.users[u].isSuperuser || key in s.users[u].direct || exists r :: Granting(s, u, key) == {r})
  }

  lemma YesIffMayUse(s: State, u: nat, key: string)
    requires Consistent(s) && u in s.users
    ensures HasPermission(s, u, key) == Yes <==> MayUse(s, u, key)
  {
    if !s.users[u].isSuperuser && key !in s.users[u].direct {
      HasPermissionMeans(s, u, key);
    }
  }

  // The actor may use every permission behind these ids.
  ghost predicate WithinScope(s: State, actor: nat, permissionIds: set<nat>) {
    forall p :: p in permissionIds && p in s.permissions ==> MayUse(s, actor, s.permissions[p])
  }

  lemma ScopeMeans(s: State, actor: nat, keys: set<string>, permissionIds: set<nat>)
    requires Consistent(s) && actor in s.users
    requires keys == set p | p in permissionIds && p in s.permissions :: s.permissions[p]
    ensures MayGrant(s, actor, keys) <==> WithinScope(s, actor, permissionIds)
  {
    if !s.users[actor].isSuperuser {
      forall k | k in keys ensures HasPermission(s, actor, k) == Yes <==> MayUse(s, actor, k) {
        YesIffMayUse(s, actor, k);
      }
      forall p | p in permissionIds && p in s.permissions ensures s.permissions[p] in keys { }
    }
  }

  // The permissions that the given roles carry.
  function Carried(s: State, roleIds: seq<nat>): set<nat> {
    set x | x in s.rolePermissions && x.0 in roleIds :: x.1
  }

  lemma CarriedKeys(s: State, roleIds: seq<nat>)
    ensures RoleKeys(s, roleIds) == set p | p in Carried(s, roleIds) && p in s.permissions :: s.permissions[p]
  {
    forall k | k in RoleKeys(s, roleIds)
      ensures k in set p | p in Carried(s, roleIds) && p in s.permissions :: s.permissions[p]
    {
      var x :| x in s.rolePermissions && x.0 in roleIds && x.1 in s.permissions && s.permissions[x.1] == k;
      assert x.1 in Carried(s, roleIds);
    }
  }

  /** Which grants succeed, and what they write: the actor may use `rbac.manage` and every permission given, the ids
    are distinct and known, and so is the role unless it is only being emptied. Then the role carries the given
    permissions, every other row is as it was; otherwise nothing changes. */
  lemma GrantSucceedsIff(s: State, actor: nat, role: nat, ids: seq<nat>)
    requires Consistent(s)
    ensures Succeeds(s, Grant(actor, role, ids)) <==>
      && MayUse(s, actor, "rbac.manage") && WithinScope(s, actor, set p | p in ids)
      && (forall i, j :: 0 <= i < j < |ids| ==> ids[i] != ids[j])
      && (forall p :: p in ids ==> p in s.permissions) && (ids != [] ==> role in s.roles)
    ensures var t := Apply(s, Grant(actor, role, ids));
            && t == s.(rolePermissions := t.rolePermissions)
            && forall r, p :: (r, p) in t.rolePermissions <==>
                 if Succeeds(s, Grant(actor, role, ids)) && r == role then p in ids else (r, p) in s.rolePermissions
  {
    if actor in s.users {
      YesIffMayUse(s, actor, "rbac.manage");
      ScopeMeans(s, actor, KeysOf(s, ids), set p | p in ids);
    }
  }

  /** Which assignments succeed, and what they write: the actor may use `rbac.manage` and every permission that the
    roles carry, the user's one role is not the admin role, the roles are distinct and known, and so is the user
    unless they only lose roles. Then these are the user's roles, every other row is as it was; otherwise
    nothing changes. */
  lemma AssignSucceedsIff(s: State, actor: nat, user: nat, roleIds: seq<nat>)
    requires Consistent(s)
    ensures Succeeds(s, Assign(actor, user, roleIds)) <==>
      && MayUse(s, actor, "rbac.manage") && WithinScope(s, actor, Carried(s, roleIds))
      && !(s.adminRole.Some? && forall r :: (user, r) in s.userRoles <==> r == s.adminRole.value)
      && (forall i, j :: 0 <= i < j < |roleIds| ==> roleIds[i] != roleIds[j])
      && (forall r :: r in roleIds ==> r in s.roles) && (roleIds != [] ==> user in s.users)
    ensures var t := Apply(s, Assign(actor, user, roleIds));
            && t == s.(userRoles := t.userRoles)
            && forall u, r :: (u, r) in t.userRoles <==>
                 if Succeeds(s, Assign(actor, user, roleIds)) && u == user then r in roleIds else (u, r) in s.userRoles
  {
    if actor in s.users {
      YesIffMayUse(s, actor, "rbac.manage");
      assert RoleKeys(s, roleIds) == set p | p in Carried(s, roleIds) && p in s.permissions :: s.permissions[p] by {
        CarriedKeys(s, roleIds);
      }
      ScopeMeans(s, actor, RoleKeys(s, roleIds), Carried(s, roleIds));
    }
    OnlyAdminMeans(s, user);
  }

  /** Nobody but a superuser, or who holds `rbac.manage` directly or through exactly one role, changes anything. */
  lemma OnlyManagersChange(s: State, st: Step)
    requires Consistent(s)
    requires st.actor in s.users ==>
      !s.users[st.actor].isSuperuser && "rbac.manage" !in s.users[st.actor].direct
      && forall r :: Granting(s, st.actor, "rbac.manage") != {r}
    ensures Apply(s, st) == s
  {
    if st.actor in s.users {
      YesIffMayUse(s, st.actor, "rbac.manage");
    }
  }

  lemma GrantCeiling(s: State, actor: nat, role: nat, ids: seq<nat>, u: nat, key: string)
    requires Consistent(s) && Ordinary(s, actor) && MayGrant(s, actor, KeysOf(s, ids))
    requires Holds(SetRolePermissions(s, role, ids), u, key)
    ensures Holds(s, u, key) || Holds(s, actor, key)
  {
    var s' := SetRolePermissions(s, role, ids);
    if key !in s.users[u].direct {
      var r :| r in s'.roles && GrantedBy(s', u, key, r);
      var p :| p in s.permissions && s.permissions[p] == key && (r, p) in s'.rolePermissions;
      if (r, p) in s.rolePermissions {
        assert GrantedBy(s, u, key, r);
      } else {
        assert p in ids && key in KeysOf(s, ids);
        YesIsHeld(s, actor, key);
      }
    }
  }

  lemma AssignCeiling(s: State, actor: nat, user: nat, roleIds: seq<nat>, u: nat, key: string)
    requires Consistent(s) && Ordinary(s, actor) && MayGrant(s, actor, RoleKeys(s, roleIds))
    requires Holds(AssignRoles(s, user, roleIds), u, key)
    ensures Holds(s, u, key) || Holds(s, actor, key)
  {
    var s' := AssignRoles(s, user, roleIds);
    if key !in s.users[u].direct {
      var r :| r in s'.roles && GrantedBy(s', u, key, r);
      if (u, r) in s.userRoles {
        assert GrantedBy(s, u, key, r);
      } else {
        var p :| p in s.permissions && s.permissions[p] == key && (r, p) in s.rolePermissions;
        assert r in roleIds && (r, p) in s.rolePermissions && key in RoleKeys(s, roleIds);
        YesIsHeld(s, actor, key);
      }
    }
  }

  /** One step by an ordinary actor gives nobody a permission outside that user's own and the actor's. */
  lemma StepCeiling(s: State, st: Step, u: nat, key: string)
    requires Consistent(s) && Ordinary(s, st.actor) && Holds(Apply(s, st), u, key)
    ensures Holds(s, u, key) || Holds(s, st.actor, key)
  {
    if Succeeds(s, st) {
      match st
      case Grant(a, role, ids) => GrantCeiling(s, a, role, ids, u, key);
      case Assign(a, user, roleIds) => AssignCeiling(s, a, user, roleIds, u, key);
    }
  }

  // Some ordinary user holds the permission.
  predicate HeldByOrdinary(s: State, key: string) { exists u :: u in s.users && Ordinary(s, u) && Holds(s, u, key) }

  /** Over any sequence of such steps, whoever makes them, no permission appears among the ordinary users
    that none of them held at the start. */
  lemma {:induction false} OrdinaryUnionNeverGrows(s: State, steps: seq<Step>, key: string)
    requires Consistent(s) && forall i :: 0 <= i < |steps| ==> Ordinary(s, steps[i].actor)
    requires HeldByOrdinary(Run(s, steps), key)
    ensures HeldByOrdinary(s, key)
    decreases |steps|
  {
    if steps != [] {
      var s1 := Apply(s, steps[0]);
      ApplyKeepsConsistent(s, steps[0]);
      forall i | 0 <= i < |steps[1..]| ensures Ordinary(s1, steps[1..][i].actor) {
        assert steps[1..][i] == steps[i + 1];
      }
      OrdinaryUnionNeverGrows(s1, steps[1..], key);
      var u :| u in s1.users && Ordinary(s1, u) && Holds(s1, u, key);
      StepCeiling(s, steps[0], u, key);
      assert Ordinary(s, u) && Ordinary(s, steps[0].actor);
    }
  }

  /** A successful grant decides what its role carries: afterwards a bearer of the role holds a permission
    iff it is granted, or held without the role. */
  lemma GrantTakesEffect(s: State, role: nat, ids: seq<nat>, u: nat, key: string)
    requires Consistent(s) && role in s.roles && (u, role) in s.userRoles && forall p :: p in ids ==> p in s.permissions
    ensures Holds(SetRolePermissions(s, role, ids), u, key) <==>
      || key in KeysOf(s, ids) || key in s.users[u].direct
      || exists r :: r in s.roles && r != role && GrantedBy(s, u, key, r)
  {
    var s' := SetRolePermissions(s, role, ids);
    forall r | r != role ensures GrantedBy(s', u, key, r) <==> GrantedBy(s, u, key, r) {
      assert forall p :: (r, p) in s'.rolePermissions <==> (r, p) in s.rolePermissions;
    }
    if key in KeysOf(s, ids) {
      var p :| p in ids && p in s.permissions && s.permissions[p] == key;
      assert (role, p) in s'.rolePermissions;
      assert GrantedBy(s', u, key, role);
    }
    if GrantedBy(s', u, key, role) {
      var p :| p in s.permissions && s.permissions[p] == key && (role, p) in s'.rolePermissions;
      assert p in ids;
    }
    if r :| r in s.roles && r != role && GrantedBy(s, u, key, r) {
      assert GrantedBy(s', u, key, r);
    }
  }

  /** A successful assignment replaces a user's roles, and leaves every other user as they were. */
  lemma AssignTakesEffect(s: State, user: nat, roleIds: seq<nat>, u: nat, key: string)
    requires Consistent(s) && user in s.users && u in s.users && forall r :: r in roleIds ==> r in s.roles
    ensures u == user ==>
      (Holds(AssignRoles(s, user, roleIds), u, key) <==> key in s.users[u].direct || key in RoleKeys(s, roleIds))
    ensures u != user ==> (Holds(AssignRoles(s, user, roleIds), u, key) <==> Holds(s, u, key))
  {
    var s' := AssignRoles(s, user, roleIds);
    forall r: nat | u != user ensures GrantedBy(s', u, key, r) <==> GrantedBy(s, u, key, r) {
      assert (u, r) in s'.userRoles <==> (u, r) in s.userRoles;
    }
    if u == user {
      assert forall r :: (u, r) in s'.userRoles <==> r in roleIds;
      if key in RoleKeys(s, roleIds) {
        var x :| x in s.rolePermissions && x.0 in roleIds && x.1 in s.permissions && s.permissions[x.1] == key;
        assert (x.0, x.1) == x;
        assert GrantedBy(s', u, key, x.0);
      }
      if r :| r in s.roles && GrantedBy(s', u, key, r) {
        var p :| p in s.permissions && s.permissions[p] == key && (r, p) in s.rolePermissions;
        assert key in RoleKeys(s, roleIds);
      }
    }
  }

  // ---------------------------------------------------------------------------------------------
  // The last bearer of the admin role

  function AdminHolders(s: State): set<nat> { set x | x in s.userRoles && s.adminRole == Some(x.1) :: x.0 }

  lemma HolderMeans(s: State, u: nat)
    ensures u in AdminHolders(s) <==> s.adminRole.Some? && (u, s.adminRole.value) in s.userRoles
  {
    if s.adminRole.Some? && (u, s.adminRole.value) in s.userRoles {
      var x := (u, s.adminRole.value);
      assert x in s.userRoles && s.adminRole == Some(x.1) && x.0 == u;
    }
  }

  lemma OnlyAdminHolds(s: State, u: nat)
    requires OnlyAdmin(s, u)
    ensures u in AdminHolders(s)
  {
    var rows := set x | x in s.userRoles && x.0 == u;
    assert (u, s.adminRole.value) in rows;
    HolderMeans(s, u);
  }

  lemma HoldersAfter(s: State, st: Step, u: nat)
    ensures u in AdminHolders(Apply(s, st)) <==>
      if Succeeds(s, st) && st.Assign? && u == st.user then s.adminRole.Some? && s.adminRole.value in st.roleIds
      else u in AdminHolders(s)
  {
    HolderMeans(s, u);
    HolderMeans(Apply(s, st), u);
    if s.adminRole.Some? && Succeeds(s, st) && st.Assign? {
      assert (u, s.adminRole.value) in Apply(s, st).userRoles <==>
        if u == st.user then s.adminRole.value in st.roleIds else (u, s.adminRole.value) in s.userRoles;
    }
  }

  /** `ensure_admins_remain` looks at one user's rows, not at who else bears the admin role: the last bearer
    loses it if they have another role as well. */
  lemma LastAdminCanBeRemoved()
    ensures var s := State(map[1 := User(false, {RBAC_MANAGE}), 7 := User(false, {})], {1, 2}, map[],
                           {(7, 1), (7, 2)}, {}, Some(1));
            Consistent(s) && Succeeds(s, Assign(1, 7, []))
            && AdminHolders(s) == {7} && AdminHolders(Apply(s, Assign(1, 7, []))) == {}
  {
    var s := State(map[1 := User(false, {RBAC_MANAGE}), 7 := User(false, {})], {1, 2}, map[],
                   {(7, 1), (7, 2)}, {}, Some(1));
    var st := Assign(1, 7, []);
    assert !OnlyAdmin(s, 7) by {
      var rows := set x | x in s.userRoles && x.0 == 7;
      assert (7, 2) in rows && (7, 2) !in {(7, 1)};
    }
    assert RoleKeys(s, []) == {};
    assert Succeeds(s, st);
    assert AdminHolders(s) == {7};
    forall u ensures u !in AdminHolders(Apply(s, st)) {
      HoldersAfter(s, st, u);
    }
  }

  // The step succeeds and takes the admin role from its only bearer.
  predicate LosesLast(s: State, st: Step) {
    && st.Assign? && Succeeds(s, st)
    && s.adminRole.Some? && AdminHolders(s) == {st.user} && s.adminRole.value !in st.roleIds
  }

  /** A step leaves nobody with the admin role exactly if it assigns other roles to its only bearer, and
    succeeds. */
  lemma LosesLastIff(s: State, st: Step)
    requires AdminHolders(s) != {}
    ensures AdminHolders(Apply(s, st)) == {} <==> LosesLast(s, st)
  {
    forall u ensures u in AdminHolders(Apply(s, st)) <==>
      if Succeeds(s, st) && st.Assign? && u == st.user then s.adminRole.Some? && s.adminRole.value in st.roleIds
      else u in AdminHolders(s)
    {
      HoldersAfter(s, st, u);
    }
    var v :| v in AdminHolders(s);
    HolderMeans(s, v);
    if AdminHolders(Apply(s, st)) == {} {
      forall u | u in AdminHolders(s) ensures u == st.user {
        assert u !in AdminHolders(Apply(s, st));
      }
    }
  }

  /** What the guard does give: a user whose one role is the admin role keeps it in every run. */
  lemma {:induction false} SoleAdminKeepsRole(s: State, steps: seq<Step>, u: nat)
    requires OnlyAdmin(s, u)
    ensures OnlyAdmin(Run(s, steps), u)
    decreases |steps|
  {
    if steps != [] {
      var t := Apply(s, steps[0]);
      assert (set x | x in t.userRoles && x.0 == u) == (set x | x in s.userRoles && x.0 == u);
      SoleAdminKeepsRole(t, steps[1..], u);
    }
  }

  predicate MayManage(s: State, a: nat) { a in s.users && HasPermission(s, a, RBAC_MANAGE) == Yes }

  lemma {:induction false} NobodyMayManage(s: State, steps: seq<Step>)
    requires forall a :: a in s.users ==> !MayManage(s, a)
    ensures Run(s, steps) == s
    decreases |steps|
  {
    if steps != [] {
      assert Apply(s, steps[0]) == s;
      NobodyMayManage(s, steps[1..]);
    }
  }

  // One bearer with another role beside is stripped of all roles.
  lemma Strip(s: State, a: nat, u: nat)
    requires MayManage(s, a) && u in AdminHolders(s) && !OnlyAdmin(s, u)
    ensures var t := Apply(s, Assign(a, u, []));
            && AdminHolders(t) == AdminHolders(s) - {u}
            && (u != a ==> MayManage(t, a))
            && forall v :: v in AdminHolders(t) && !OnlyAdmin(s, v) ==> !OnlyAdmin(t, v)
  {
    var st := Assign(a, u, []);
    var t := Apply(s, st);
    assert RoleKeys(s, []) == {};
    assert Succeeds(s, st);
    forall v ensures v in AdminHolders(t) <==> v in AdminHolders(s) - {u} {
      HoldersAfter(s, st, v);
    }
    if u != a {
      assert GrantRows(t, a, RBAC_MANAGE) == GrantRows(s, a, RBAC_MANAGE);
    }
    forall v | v in AdminHolders(t) && !OnlyAdmin(s, v) ensures !OnlyAdmin(t, v) {
      assert v != u;
      assert (set x | x in t.userRoles && x.0 == v) == (set x | x in s.userRoles && x.0 == v);
    }
  }

  // The one who does it comes last.
  lemma {:induction false} StripAll(s: State, a: nat) returns (steps: seq<Step>)
    requires AdminHolders(s) != {} ==> MayManage(s, a)
    requires forall u :: u in AdminHolders(s) ==> !OnlyAdmin(s, u)
    ensures AdminHolders(Run(s, steps)) == {}
    decreases |AdminHolders(s)|
  {
    if AdminHolders(s) == {} {
      steps := [];
    } else {
      var u :| u in AdminHolders(s) && (u == a ==> AdminHolders(s) == {a}) by {
        if AdminHolders(s) != {a} {
          assert AdminHolders(s) - {a} != {};
          var v :| v in AdminHolders(s) - {a};
        } else {
          assert a in AdminHolders(s);
        }
      }
      var st := Assign(a, u, []);
      Strip(s, a, u);
      var t := Apply(s, st);
      var rest := StripAll(t, a);
      steps := [st] + rest;
      assert steps[1..] == rest;
    }
  }

  /** Some run of the two endpoints ends with nobody bearing the admin role exactly if somebody may manage
    roles and every bearer has another role as well. */
  lemma CanLoseLastAdminIff(s: State)
    requires AdminHolders(s) != {}
    ensures (exists steps :: AdminHolders(Run(s, steps)) == {}) <==>
      (exists a :: a in s.users && MayManage(s, a)) && forall u :: u in AdminHolders(s) ==> !OnlyAdmin(s, u)
  {
    if steps :| AdminHolders(Run(s, steps)) == {} {
      if forall a :: a in s.users ==> !MayManage(s, a) {
        NobodyMayManage(s, steps);
      }
      forall u | u in AdminHolders(s) ensures !OnlyAdmin(s, u) {
        if OnlyAdmin(s, u) {
          SoleAdminKeepsRole(s, steps, u);
          OnlyAdminHolds(Run(s, steps), u);
        }
      }
    }
    if a :| a in s.users && MayManage(s, a) {
      if forall u :: u in AdminHolders(s) ==> !OnlyAdmin(s, u) {
        var steps := StripAll(s, a);
      }
    }
  }

  // The state after the first n steps.
  function After(s: State, steps: seq<Step>, n: nat): State
    requires n <= |steps|
  {
    Run(s, steps[..n])
  }

  lemma {:induction false} RunSnoc(s: State, steps: seq<Step>, st: Step)
    ensures Run(s, steps + [st]) == Apply(Run(s, steps), st)
    decreases |steps|
  {
    if steps == [] {
      assert Run(s, [st]) == Run(Apply(s, st), []);
    } else {
      assert (steps + [st])[1..] == steps[1..] + [st];
      RunSnoc(Apply(s, steps[0]), steps[1..], st);
    }
  }

  /** A run never is without a bearer exactly if none of its steps loses the last one. */
  lemma RunKeepsAdminIff(s: State, steps: seq<Step>)
    requires AdminHolders(s) != {}
    ensures (forall n :: 0 <= n <= |steps| ==> AdminHolders(After(s, steps, n)) != {}) <==>
            forall n :: 0 <= n < |steps| ==> !LosesLast(After(s, steps, n), steps[n])
  {
    forall n | 0 <= n < |steps| ensures After(s, steps, n + 1) == Apply(After(s, steps, n), steps[n]) {
      RunSnoc(s, steps[..n], steps[n]);
      assert steps[..n + 1] == steps[..n] + [steps[n]];
    }
    if forall n :: 0 <= n < |steps| ==> !LosesLast(After(s, steps, n), steps[n]) {
      var n := 0;
      while n < |steps|
        invariant 0 <= n <= |steps|
        invariant forall k :: 0 <= k <= n ==> AdminHolders(After(s, steps, k)) != {}
      {
        LosesLastIff(After(s, steps, n), steps[n]);
        n := n + 1;
      }
    } else {
      var n :| 0 <= n < |steps| && LosesLast(After(s, steps, n), steps[n]);
      LosesLastIff(After(s, steps, n), steps[n]);
      assert AdminHolders(After(s, steps, n + 1)) == {};
    }
  }
}
