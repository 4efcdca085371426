/** The admin endpoints that set roles, and the guard that at least one admin remains. The bulk endpoint
  first counts what a batch will do, then does it: the two loops must agree. */
module AdminRoles {
  import opened Options
  import opened Sets

  const ADMIN := "admin"

  datatype User = User(role: string, permissions: seq<string>, deleted: bool)

  type Users = map<nat, User>

  datatype Entry = Entry(userId: Option<nat>, role: Option<string>, permissions: Option<seq<string>>)

  // `get_by_id` does not see deleted users.
  predicate Found(users: Users, id: Option<nat>) { id.Some? && id.value in users && !users[id.value].deleted }

  function Admins(users: Users): set<nat> { set u | u in users && !users[u].deleted && users[u].role == ADMIN }

  // ---------------------------------------------------------------------------------------------
  // The counting loop

  function Demotes(users: Users, e: Entry): nat {
    if Found(users, e.userId) && e.role.Some? && users[e.userId.value].role == ADMIN && e.role.value != ADMIN
    then 1 else 0
  }

  function Promotes(users: Users, e: Entry): nat {
    if Found(users, e.userId) && e.role.Some? && users[e.userId.value].role != ADMIN && e.role.value == ADMIN
    then 1 else 0
  }

  function Demotions(users: Users, es: seq<Entry>): nat {
    if es == [] then 0 else Demotions(users, es[..|es| - 1]) + Demotes(users, es[|es| - 1])
  }

  function Promotions(users: Users, es: seq<Entry>): nat {
    if es == [] then 0 else Promotions(users, es[..|es| - 1]) + Promotes(users, es[|es| - 1])
  }

  function Predicted(users: Users, es: seq<Entry>): int {
    |Admins(users)| - Demotions(users, es) + Promotions(users, es)
  }

  // ---------------------------------------------------------------------------------------------
  // The applying loop

  function ApplyEntry(users: Users, e: Entry): Users {
    if !Found(users, e.userId) then users
    else
      var u := users[e.userId.value];
      users[e.userId.value := u.(
        role := if e.role.Some? then e.role.value else u.role,
        permissions := if e.permissions.Some? then e.permissions.value else u.permissions)]
  }

  function ApplyAll(users: Users, es: seq<Entry>): Users {
    if es == [] then users else ApplyEntry(ApplyAll(users, es[..|es| - 1]), es[|es| - 1])
  }

  // The role table, and the users whose only role row is the admin role.
  datatype Roles = Roles(allowed: set<string>, soleAdmins: set<nat>)

  datatype Answer = Changed | LastAdmin | InvalidRole | RaisedError | NoSuchUser

  function EntryError(users: Users, roles: Roles, e: Entry): Option<Answer> {
    if !Found(users, e.userId) || e.role.None? then None
    else if e.role.value !in roles.allowed then Some(InvalidRole)
    else if e.userId.value in roles.soleAdmins then Some(RaisedError)
    else None
  }

  function FirstError(users: Users, roles: Roles, es: seq<Entry>): Option<Answer> {
    if es == [] then None
    else
      var before := FirstError(users, roles, es[..|es| - 1]);
      if before.Some? then before else EntryError(users, roles, es[|es| - 1])
  }

  // A refused or failed batch is rolled back as a whole.
  function Bulk(users: Users, roles: Roles, es: seq<Entry>): (Users, Answer) {
    if Predicted(users, es) < 1 then (users, LastAdmin)
    else if FirstError(users, roles, es).Some? then (users, FirstError(users, roles, es).value)
    else (ApplyAll(users, es), Changed)
  }

  function SetRole(users: Users, roles: Roles, id: nat, role: Option<string>, permissions: Option<seq<string>>)
    : (Users, Answer)
  {
    if !Found(users, Some(id)) then (users, NoSuchUser)
    else if role.Some? && (role.value == "" || role.value !in roles.allowed) then (users, InvalidRole)
    else if role.Some? && users[id].role == ADMIN && role.value != ADMIN && |Admins(users)| == 1 then (users, LastAdmin)
    else (ApplyEntry(users, Entry(Some(id), role, permissions)), Changed)
  }

  // Applying entries finds the same users before and after.
  lemma {:induction false} FoundIsStable(users: Users, es: seq<Entry>, id: Option<nat>)
    ensures Found(ApplyAll(users, es), id) == Found(users, id)
  {
    if es != [] {
      FoundIsStable(users, es[..|es| - 1], id);
    }
  }

  lemma {:induction false} FirstErrorStays(users: Users, roles: Roles, es: seq<Entry>, i: nat)
    requires i < |es| && FirstError(users, roles, es[..i]).None? && EntryError(users, roles, es[i]).Some?
    ensures FirstError(users, roles, es) == EntryError(users, roles, es[i])
    decreases |es|
  {
    if i < |es| - 1 {
      assert es[..|es| - 1][..i] == es[..i];
      FirstErrorStays(users, roles, es[..|es| - 1], i);
    }
  }

  class UserAdmin {
    var users: Users
    var roles: Roles

    constructor (users: Users, roles: Roles)
      ensures this.users == users && this.roles == roles
    {
      this.users, this.roles := users, roles;
    }

    method BulkSetUserRoles(updates: seq<Entry>) returns (answer: Answer)
      modifies this`users
      ensures (users, answer) == Bulk(old(users), roles, updates)
    {
      var before := users;
      var totalAdmins := |Admins(users)|;
      var demotions, promotions := 0, 0;
      var i := 0;
      while i < |updates|
        invariant 0 <= i <= |updates|
        invariant demotions == Demotions(users, updates[..i]) && promotions == Promotions(users, updates[..i])
        invariant users == before
      {
        var e := updates[i];
        assert updates[..i + 1][..i] == updates[..i];
        if e.userId.Some? && e.userId.value in users && !users[e.userId.value].deleted {
          var user := users[e.userId.value];
          if e.role.Some? && e.role.value != user.role {
            if user.role == ADMIN && e.role.value != ADMIN { demotions := demotions + 1; }
            if user.role != ADMIN && e.role.value == ADMIN { promotions := promotions + 1; }
          }
        }
        i := i + 1;
      }
      assert updates[..|updates|] == updates;
      if totalAdmins - demotions + promotions < 1 { return LastAdmin; }

      i := 0;
      while i < |updates|
        invariant 0 <= i <= |updates|
        invariant users == ApplyAll(before, updates[..i])
        invariant FirstError(before, roles, updates[..i]).None?
      {
        var e := updates[i];
        assert updates[..i + 1][..i] == updates[..i];
        FoundIsStable(before, updates[..i], e.userId);
        if e.userId.Some? && e.userId.value in users && !users[e.userId.value].deleted {
          if e.role.Some? {
            if e.role.value !in roles.allowed {
              FirstErrorStays(before, roles, updates, i);
              users := before;
              return InvalidRole;
            }
            if e.userId.value in roles.soleAdmins {
              FirstErrorStays(before, roles, updates, i);
              users := before;
              return RaisedError;
            }
            users := users[e.userId.value := users[e.userId.value].(role := e.role.value)];
          }
          if e.permissions.Some? {
            users := users[e.userId.value := users[e.userId.value].(permissions := e.permissions.value)];
          }
          assert users == ApplyEntry(ApplyAll(before, updates[..i]), e);
        }
        i := i + 1;
      }
      answer := Changed;
    }

    method SetUserRole(id: nat, role: Option<string>, permissions: Option<seq<string>>) returns (answer: Answer)
      modifies this`users
      ensures (users, answer) == SetRole(old(users), roles, id, role, permissions)
    {
      if id !in users || users[id].deleted { return NoSuchUser; }
      var user := users[id];
      if role.Some? {
        if role.value == "" || role.value !in roles.allowed { return InvalidRole; }
        if user.role == ADMIN && role.value != ADMIN {
          var totalAdmins := |Admins(users)|;
          if totalAdmins == 1 { return LastAdmin; }
        }
        user := user.(role := role.value);
      }
      if permissions.Some? { user := user.(permissions := permissions.value); }
      users := users[id := user];
      return Changed;
    }
  }

  // ---------------------------------------------------------------------------------------------
  // When the prediction is right

  // No user has two entries that set a role.
  predicate OneRolePerUser(es: seq<Entry>) {
    forall i, j :: 0 <= i < j < |es| && es[i].role.Some? && es[j].role.Some? && es[i].userId.Some?
      ==> es[i].userId != es[j].userId
  }

  lemma {:induction false} RoleUntouched(users: Users, es: seq<Entry>, id: nat)
    requires id in users && forall i :: 0 <= i < |es| && es[i].role.Some? ==> es[i].userId != Some(id)
    ensures id in ApplyAll(users, es) && ApplyAll(users, es)[id].role == users[id].role
    ensures ApplyAll(users, es)[id].deleted == users[id].deleted
  {
    if es != [] {
      RoleUntouched(users, es[..|es| - 1], id);
    }
  }

  lemma ApplyEntryAdmins(users: Users, e: Entry)
    ensures Admins(ApplyEntry(users, e)) ==
      if !Found(users, e.userId) || e.role.None? then Admins(users)
      else if e.role.value == ADMIN then Admins(users) + {e.userId.value}
      else Admins(users) - {e.userId.value}
  {
  }

  lemma ApplyEntryCounts(users: Users, e: Entry)
    ensures |Admins(ApplyEntry(users, e))| == |Admins(users)| - Demotes(users, e) + Promotes(users, e)
  {
    ApplyEntryAdmins(users, e);
    if Found(users, e.userId) {
      assert e.userId.value in Admins(users) <==> users[e.userId.value].role == ADMIN;
    }
  }

  lemma {:induction false} PredictionIsRight(users: Users, es: seq<Entry>)
    requires OneRolePerUser(es)
    ensures |Admins(ApplyAll(users, es))| == Predicted(users, es)
  {
    if es != [] {
      var init, e := es[..|es| - 1], es[|es| - 1];
      PredictionIsRight(users, init);
      var mid := ApplyAll(users, init);
      ApplyEntryCounts(mid, e);
      FoundIsStable(users, init, e.userId);
      if Found(users, e.userId) && e.role.Some? {
        RoleUntouched(users, init, e.userId.value);
      }
    }
  }

  // Entries that set a role of `x`, and those among them that set it to admin.
  function RoleEntries(es: seq<Entry>, x: nat): nat {
    if es == [] then 0
    else
      var e := es[|es| - 1];
      RoleEntries(es[..|es| - 1], x) + if e.userId == Some(x) && e.role.Some? then 1 else 0
  }

  function AdminEntries(es: seq<Entry>, x: nat): nat {
    if es == [] then 0
    else
      var e := es[|es| - 1];
      AdminEntries(es[..|es| - 1], x) + if e.userId == Some(x) && e.role == Some(ADMIN) then 1 else 0
  }

  lemma {:induction false} TwoEntriesCount(es: seq<Entry>, x: nat, i: nat, j: nat)
    requires i < j < |es| && es[i].userId == es[j].userId == Some(x) && es[i].role.Some? && es[j].role.Some?
    ensures RoleEntries(es, x) >= 2
  {
    if j < |es| - 1 {
      TwoEntriesCount(es[..|es| - 1], x, i, j);
    } else {
      OneEntryCounts(es[..j], x, i);
    }
  }

  lemma {:induction false} OneEntryCounts(es: seq<Entry>, x: nat, i: nat)
    requires i < |es| && es[i].userId == Some(x) && es[i].role.Some?
    ensures RoleEntries(es, x) >= 1
  {
    if i < |es| - 1 {
      OneEntryCounts(es[..|es| - 1], x, i);
    }
  }

  // A table of one user, and what both loops make of it.
  lemma {:induction false} LoneUser(es: seq<Entry>, x: nat, role: string)
    ensures var users := map[x := User(role, [], false)];
            && Demotions(users, es) == (if role == ADMIN then RoleEntries(es, x) - AdminEntries(es, x) else 0)
            && Promotions(users, es) == (if role == ADMIN then 0 else AdminEntries(es, x))
  {
    if es != [] {
      LoneUser(es[..|es| - 1], x, role);
    }
  }

  // From the second entry on, the role a user ends with does not depend on the role it began with.
  lemma {:induction false} EndsAlike(es: seq<Entry>, x: nat, r: string, q: string)
    ensures ApplyAll(map[x := User(r, [], false)], es).Keys == {x} == ApplyAll(map[x := User(q, [], false)], es).Keys
    ensures !ApplyAll(map[x := User(r, [], false)], es)[x].deleted
    ensures !ApplyAll(map[x := User(q, [], false)], es)[x].deleted
    ensures RoleEntries(es, x) >= 1 ==>
      ApplyAll(map[x := User(r, [], false)], es)[x].role == ApplyAll(map[x := User(q, [], false)], es)[x].role
  {
    if es != [] {
      EndsAlike(es[..|es| - 1], x, r, q);
    }
  }

  lemma TwoRolesMispredict(es: seq<Entry>, x: nat)
    requires RoleEntries(es, x) >= 2
    ensures exists users: Users :: |Admins(ApplyAll(users, es))| != Predicted(users, es)
  {
    var a, b: Users := map[x := User(ADMIN, [], false)], map[x := User("user", [], false)];
    LoneUser(es, x, ADMIN);
    LoneUser(es, x, "user");
    EndsAlike(es, x, ADMIN, "user");
    assert Admins(a) == {x} && Admins(b) == {};
    var endA, endB := ApplyAll(a, es), ApplyAll(b, es);
    assert Admins(endA) == Admins(endB);
    assert Predicted(a, es) == 1 - (RoleEntries(es, x) - AdminEntries(es, x));
    assert Predicted(b, es) == AdminEntries(es, x);
    assert |Admins(endA)| != Predicted(a, es) || |Admins(endB)| != Predicted(b, es);
  }

  /** The counting loop predicts the number of admins after the applying loop, on every user table, exactly
    for the batches in which no user is given a role twice. */
  lemma PredictionExactIff(es: seq<Entry>)
    ensures (forall users: Users :: |Admins(ApplyAll(users, es))| == Predicted(users, es)) <==> OneRolePerUser(es)
  {
    if OneRolePerUser(es) {
      forall users: Users ensures |Admins(ApplyAll(users, es))| == Predicted(users, es) {
        PredictionIsRight(users, es);
      }
    } else {
      var i, j :| 0 <= i < j < |es| && es[i].role.Some? && es[j].role.Some? && es[i].userId.Some?
        && es[i].userId == es[j].userId;
      TwoEntriesCount(es, es[i].userId.value, i, j);
      TwoRolesMispredict(es, es[i].userId.value);
    }
  }

  lemma OneMore(users: Users, roles: Roles, es: seq<Entry>, e: Entry)
    ensures Demotions(users, es + [e]) == Demotions(users, es) + Demotes(users, e)
    ensures Promotions(users, es + [e]) == Promotions(users, es) + Promotes(users, e)
    ensures ApplyAll(users, es + [e]) == ApplyEntry(ApplyAll(users, es), e)
    ensures FirstError(users, roles, es).None? ==> FirstError(users, roles, es + [e]) == EntryError(users, roles, e)
  {
    assert (es + [e])[..|es|] == es;
  }

  /** With a user given a role twice the guard can pass a batch that leaves no admin at all. */
  lemma DuplicatesCanRemoveLastAdmin(p: seq<string>)
    ensures var users: Users := map[1 := User(ADMIN, p, false), 2 := User("user", p, false)];
            var es := [Entry(Some(1), Some("user"), None), Entry(Some(2), Some(ADMIN), None)]
                    + [Entry(Some(2), Some("user"), None)];
            var (after, answer) := Bulk(users, Roles({"user", "staff", ADMIN}, {}), es);
            answer == Changed && |Admins(users)| == 1 && |Admins(after)| == 0
  {
    var users: Users := map[1 := User(ADMIN, p, false), 2 := User("user", p, false)];
    var roles := Roles({"user", "staff", ADMIN}, {});
    var e1, e2 := Entry(Some(1), Some("user"), None), Entry(Some(2), Some(ADMIN), None);
    var e3 := Entry(Some(2), Some("user"), None);
    OneMore(users, roles, [], e1);
    assert [] + [e1] == [e1];
    OneMore(users, roles, [e1], e2);
    assert [e1] + [e2] == [e1, e2];
    OneMore(users, roles, [e1, e2], e3);
    assert Admins(users) == {1};
    assert Admins(ApplyAll(users, [e1, e2] + [e3])) == {};
  }

  // ---------------------------------------------------------------------------------------------
  // What a batch does to each user

  // The last role, and the last permissions, that the batch gives the user, if any.
  function LastRole(es: seq<Entry>, u: nat): (r: Option<string>)
    ensures r.Some? <==> exists i :: 0 <= i < |es| && es[i].userId == Some(u) && es[i].role.Some?
  {
    if es == [] then None
    else
      var e := es[|es| - 1];
      if e.userId == Some(u) && e.role.Some? then e.role else LastRole(es[..|es| - 1], u)
  }

  function LastPermissions(es: seq<Entry>, u: nat): Option<seq<string>> {
    if es == [] then None
    else
      var e := es[|es| - 1];
      if e.userId == Some(u) && e.permissions.Some? then e.permissions else LastPermissions(es[..|es| - 1], u)
  }

  /** Each user it finds gets the last role and the last permissions that the batch names for it, whichever
    entries they come from; what is not named stays, and so does every user it does not find. */
  lemma {:induction false} EachEntryTakesEffect(users: Users, es: seq<Entry>, u: nat)
    requires u in users
    ensures u in ApplyAll(users, es)
    ensures ApplyAll(users, es)[u] ==
      if users[u].deleted then users[u]
      else
        var role, permissions := LastRole(es, u), LastPermissions(es, u);
        User(if role.Some? then role.value else users[u].role,
             if permissions.Some? then permissions.value else users[u].permissions, false)
  {
    if es != [] {
      EachEntryTakesEffect(users, es[..|es| - 1], u);
    }
  }

  // ---------------------------------------------------------------------------------------------
  // When the guard is right

  predicate EndsAsAdmin(users: Users, es: seq<Entry>, u: nat)
    requires u in users
  {
    LastRole(es, u) == Some(ADMIN) || (LastRole(es, u).None? && users[u].role == ADMIN)
  }

  lemma {:induction false} SameUsers(users: Users, es: seq<Entry>)
    ensures ApplyAll(users, es).Keys == users.Keys
  {
    if es != [] {
      SameUsers(users, es[..|es| - 1]);
    }
  }

  lemma AdminsAfter(users: Users, es: seq<Entry>)
    ensures Admins(ApplyAll(users, es)) == set u | u in users && !users[u].deleted && EndsAsAdmin(users, es, u)
  {
    SameUsers(users, es);
    forall u | u in users
      ensures u in Admins(ApplyAll(users, es)) <==> !users[u].deleted && EndsAsAdmin(users, es, u)
    {
      EachEntryTakesEffect(users, es, u);
    }
  }

  /** On a table that has an admin, the bulk endpoint leaves none exactly if the guard passes, no entry raises,
    and nobody ends as an admin, by the last role the batch names for them or else by their own. */
  lemma LeavesNoAdminIff(users: Users, roles: Roles, es: seq<Entry>)
    requires Admins(users) != {}
    ensures Admins(Bulk(users, roles, es).0) == {} <==>
      && Predicted(users, es) >= 1 && FirstError(users, roles, es).None?
      && forall u :: u in users && !users[u].deleted ==> !EndsAsAdmin(users, es, u)
  {
    AdminsAfter(users, es);
    var after := Admins(ApplyAll(users, es));
    forall u | u in users && !users[u].deleted ensures u in after <==> EndsAsAdmin(users, es, u) {
    }
    assert after == {} <==> forall u :: u in users && !users[u].deleted ==> u !in after;
  }

  // The users to whom the batch gives a role, but in the end not the admin role.
  function Fading(es: seq<Entry>): set<nat> {
    set i | 0 <= i < |es| && es[i].userId.Some? && es[i].role.Some?
            && LastRole(es, es[i].userId.value) != Some(ADMIN) :: es[i].userId.value
  }

  predicate Names(e: Entry, ids: set<nat>, admin: bool) {
    e.userId.Some? && e.userId.value in ids && e.role.Some? && (e.role.value == ADMIN) == admin
  }

  // The entries that give one of these users the admin role, or another role.
  function Naming(es: seq<Entry>, ids: set<nat>, admin: bool): nat {
    if es == [] then 0 else Naming(es[..|es| - 1], ids, admin) + if Names(es[|es| - 1], ids, admin) then 1 else 0
  }

  /** What must hold of a batch by itself: each fading user is given other roles more often than all the other
    fading users together are given the admin role. */
  predicate SafeBatch(es: seq<Entry>) {
    forall x :: x in Fading(es) ==> Naming(es, Fading(es) - {x}, true) < Naming(es, {x}, false)
  }

  lemma {:induction false} NamingGrows(es: seq<Entry>, a: set<nat>, b: set<nat>, admin: bool)
    requires a <= b
    ensures Naming(es, a, admin) <= Naming(es, b, admin)
  {
    if es != [] {
      NamingGrows(es[..|es| - 1], a, b, admin);
    }
  }

  lemma {:induction false} NamingSplits(es: seq<Entry>, a: set<nat>, x: nat, admin: bool)
    requires x !in a
    ensures Naming(es, a + {x}, admin) == Naming(es, a, admin) + Naming(es, {x}, admin)
  {
    if es != [] {
      NamingSplits(es[..|es| - 1], a, x, admin);
    }
  }

  lemma {:induction false} NamedAtLeastOnce(es: seq<Entry>, x: nat)
    requires LastRole(es, x).Some? && LastRole(es, x) != Some(ADMIN)
    ensures Naming(es, {x}, false) >= 1
  {
    var e := es[|es| - 1];
    if !(e.userId == Some(x) && e.role.Some?) {
      NamedAtLeastOnce(es[..|es| - 1], x);
    }
  }

  lemma {:induction false} NamedAtLeastOnceEach(es: seq<Entry>, ids: set<nat>)
    requires ids <= Fading(es)
    ensures Naming(es, ids, false) >= |ids|
  {
    if ids != {} {
      var x :| x in ids;
      NamedAtLeastOnceEach(es, ids - {x});
      NamingSplits(es, ids - {x}, x, false);
      assert ids - {x} + {x} == ids;
      NamedAtLeastOnce(es, x);
    }
  }

  function Others(users: Users): set<nat> { set u | u in users && !users[u].deleted && users[u].role != ADMIN }

  // The counting loop in these terms: demotions count entries about admins, promotions entries about others.
  lemma {:induction false} CountsAreNamings(users: Users, es: seq<Entry>)
    ensures Demotions(users, es) == Naming(es, Admins(users), false)
    ensures Promotions(users, es) == Naming(es, Others(users), true)
  {
    if es != [] {
      CountsAreNamings(users, es[..|es| - 1]);
    }
  }

  lemma FadingMeans(es: seq<Entry>, u: nat)
    ensures u in Fading(es) <==> LastRole(es, u).Some? && LastRole(es, u) != Some(ADMIN)
  {
  }

  // Entries for users who end without the admin role all concern fading users.
  lemma {:induction false} OnlyFadingNamed(es: seq<Entry>, whole: seq<Entry>, a: set<nat>, b: set<nat>)
    requires es <= whole && forall u :: u in a && LastRole(whole, u).Some? ==> u in b
    ensures Naming(es, a, true) <= Naming(es, b, true)
  {
    if es != [] {
      OnlyFadingNamed(es[..|es| - 1], whole, a, b);
      var e := es[|es| - 1];
      assert whole[|es| - 1] == e;
    }
  }

  lemma SafeBatchKeepsAnAdmin(users: Users, roles: Roles, es: seq<Entry>)
    requires SafeBatch(es) && Admins(users) != {}
    ensures Admins(Bulk(users, roles, es).0) != {}
  {
    LeavesNoAdminIff(users, roles, es);
    if forall u :: u in users && !users[u].deleted ==> !EndsAsAdmin(users, es, u) {
      var a, fading := Admins(users), Fading(es);
      var x :| x in a;
      forall u | u in a ensures u in fading { FadingMeans(es, u); }
      CountsAreNamings(users, es);
      NamingSplits(es, a - {x}, x, false);
      assert a - {x} + {x} == a;
      NamedAtLeastOnceEach(es, a - {x});
      forall u | u in Others(users) && LastRole(es, u).Some? ensures u in fading - {x} { FadingMeans(es, u); }
      OnlyFadingNamed(es, es, Others(users), fading - {x});
      assert Predicted(users, es) < 1;
    }
  }

  function RolesOf(es: seq<Entry>): set<string> {
    set i | 0 <= i < |es| && es[i].role.Some? :: es[i].role.value
  }

  lemma {:induction false} AllowedRolesRaiseNothing(users: Users, allowed: set<string>, es: seq<Entry>)
    requires RolesOf(es) <= allowed
    ensures FirstError(users, Roles(allowed, {}), es).None?
  {
    if es != [] {
      var init := es[..|es| - 1];
      assert forall i :: 0 <= i < |init| ==> init[i] == es[i];
      assert RolesOf(init) <= RolesOf(es);
      AllowedRolesRaiseNothing(users, allowed, init);
    }
  }

  // The table on which an unsafe batch does its damage: one admin, and the other fading users.
  lemma UnsafeBatchLosesAdmins(es: seq<Entry>, x: nat)
    requires x in Fading(es) && Naming(es, Fading(es) - {x}, true) >= Naming(es, {x}, false)
    ensures exists users: Users, roles ::
      Admins(users) != {} && Admins(Bulk(users, roles, es).0) == {} && Bulk(users, roles, es).1 == Changed
  {
    var fading := Fading(es);
    var users: Users := map u | u in fading :: User(if u == x then ADMIN else "user", [], false);
    var roles := Roles(RolesOf(es), {});
    assert Admins(users) == {x} && Others(users) == fading - {x};
    CountsAreNamings(users, es);
    AllowedRolesRaiseNothing(users, roles.allowed, es);
    forall u | u in users ensures !EndsAsAdmin(users, es, u) { FadingMeans(es, u); }
    LeavesNoAdminIff(users, roles, es);
    assert Bulk(users, roles, es).1 == Changed;
  }

  /** A batch can be trusted with every table and every role table, never to remove the last admin, exactly if
    it is safe. */
  lemma SafeBatchIff(es: seq<Entry>)
    ensures (forall users: Users, roles :: Admins(users) != {} ==> Admins(Bulk(users, roles, es).0) != {})
            <==> SafeBatch(es)
  {
    if SafeBatch(es) {
      forall users: Users, roles | Admins(users) != {} ensures Admins(Bulk(users, roles, es).0) != {} {
        SafeBatchKeepsAnAdmin(users, roles, es);
      }
    } else {
      var x :| x in Fading(es) && !(Naming(es, Fading(es) - {x}, true) < Naming(es, {x}, false));
      UnsafeBatchLosesAdmins(es, x);
    }
  }

  /** In particular a batch is safe if it gives no user a role twice, or ends by making an admin of each user
    to whom it gives a role. */
  lemma PlainBatchesAreSafe(es: seq<Entry>)
    ensures OneRolePerUser(es) ==> SafeBatch(es)
    ensures (forall u :: LastRole(es, u).Some? ==> LastRole(es, u) == Some(ADMIN)) ==> SafeBatch(es)
  {
    if OneRolePerUser(es) {
      forall users: Users, roles | Admins(users) != {} ensures Admins(Bulk(users, roles, es).0) != {} {
        PredictionIsRight(users, es);
      }
      SafeBatchIff(es);
    }
  }

  // ---------------------------------------------------------------------------------------------
  // What is answered

  // The entry sets a role of a user who is there.
  predicate SetsRole(users: Users, e: Entry) {
    e.userId.Some? && e.userId.value in users && !users[e.userId.value].deleted && e.role.Some?
  }

  // Such a role must be in the role table, and the user's only role row not the admin role.
  predicate EntryRefused(users: Users, roles: Roles, e: Entry) {
    SetsRole(users, e) && (e.role.value !in roles.allowed || e.userId.value in roles.soleAdmins)
  }

  lemma {:induction false} FirstErrorMeans(users: Users, roles: Roles, es: seq<Entry>)
    ensures FirstError(users, roles, es).None? <==> forall i :: 0 <= i < |es| ==> !EntryRefused(users, roles, es[i])
    ensures FirstError(users, roles, es).Some? ==>
      exists i :: 0 <= i < |es| && EntryRefused(users, roles, es[i])
        && (forall j :: 0 <= j < i ==> !EntryRefused(users, roles, es[j]))
        && FirstError(users, roles, es).value == if es[i].role.value !in roles.allowed then InvalidRole else RaisedError
  {
    if es != [] {
      var init, e := es[..|es| - 1], es[|es| - 1];
      FirstErrorMeans(users, roles, init);
      assert forall i :: 0 <= i < |init| ==> es[i] == init[i];
      assert EntryError(users, roles, e).Some? <==> EntryRefused(users, roles, e);
      if FirstError(users, roles, init).Some? {
        var i :| 0 <= i < |init| && EntryRefused(users, roles, init[i])
          && (forall j :: 0 <= j < i ==> !EntryRefused(users, roles, init[j]))
          && FirstError(users, roles, init).value
             == if init[i].role.value !in roles.allowed then InvalidRole else RaisedError;
        assert EntryRefused(users, roles, es[i]);
      } else if EntryRefused(users, roles, e) {
        assert EntryRefused(users, roles, es[|es| - 1]);
      }
    }
  }

  /** The bulk endpoint answers by its guard first, and then goes through exactly if every role it is to set is in the
    role table and of no user whose only role row is the admin role. Otherwise nothing changes. */
  lemma BulkAnswers(users: Users, roles: Roles, es: seq<Entry>)
    ensures Bulk(users, roles, es).1 == LastAdmin <==> Predicted(users, es) < 1
    ensures Bulk(users, roles, es).1 == Changed <==>
      Predicted(users, es) >= 1
      && forall i :: 0 <= i < |es| && SetsRole(users, es[i]) ==>
           es[i].role.value in roles.allowed && es[i].userId.value !in roles.soleAdmins
    ensures Bulk(users, roles, es).1 != Changed ==> Bulk(users, roles, es).0 == users
  {
    FirstErrorMeans(users, roles, es);
    assert (forall i :: 0 <= i < |es| ==> !EntryRefused(users, roles, es[i])) <==>
      forall i :: 0 <= i < |es| && SetsRole(users, es[i]) ==>
        es[i].role.value in roles.allowed && es[i].userId.value !in roles.soleAdmins;
  }

  // No other account, not deleted, has the admin role.
  predicate NoOtherAdmin(users: Users, id: nat) {
    forall u :: u in users && !users[u].deleted && users[u].role == "admin" ==> u == id
  }

  /** The single endpoint answers in this order: the user must be there, a role that is given not empty and in the
    role table, and another role is not given to the only admin. Then the user has what was given, and keeps the
    rest; otherwise nothing changes. */
  lemma SetRoleAnswers(users: Users, roles: Roles, id: nat, role: Option<string>, permissions: Option<seq<string>>)
    ensures var (after, answer) := SetRole(users, roles, id, role, permissions);
            var there := id in users && !users[id].deleted;
            var valid := role.None? || (role.value != "" && role.value in roles.allowed);
            && (answer == NoSuchUser <==> !there)
            && (answer == InvalidRole <==> there && !valid)
            && (answer == LastAdmin <==>
                  there && valid && role.Some? && role.value != "admin" && users[id].role == "admin"
                  && NoOtherAdmin(users, id))
            && answer != RaisedError
            && (answer != Changed ==> after == users)
            && (answer == Changed ==>
                  after == users[id := User(if role.Some? then role.value else users[id].role,
                                            if permissions.Some? then permissions.value else users[id].permissions,
                                            false)])
  {
    if id in users && !users[id].deleted && users[id].role == "admin" {
      assert id in Admins(users);
      SizeTells(Admins(users));
      if NoOtherAdmin(users, id) {
        forall u | u in Admins(users) ensures u == id { }
        assert Admins(users) == {id};
      } else {
        var u :| u in users && !users[u].deleted && users[u].role == "admin" && u != id;
        assert u in Admins(users);
      }
    }
  }

  // ---------------------------------------------------------------------------------------------
  // Runs of the two endpoints

  datatype Request =
    | BulkRequest(entries: seq<Entry>)
    | SingleRequest(id: nat, role: Option<string>, permissions: Option<seq<string>>)

  function Serve(users: Users, roles: Roles, r: Request): Users {
    match r
    case BulkRequest(es) => Bulk(users, roles, es).0
    case SingleRequest(id, role, permissions) => SetRole(users, roles, id, role, permissions).0
  }

  function Run(users: Users, roles: Roles, rs: seq<Request>): Users
    decreases |rs|
  {
    if rs == [] then users else Run(Serve(users, roles, rs[0]), roles, rs[1..])
  }

  lemma ServeKeepsAnAdmin(users: Users, roles: Roles, r: Request)
    requires |Admins(users)| >= 1 && (r.BulkRequest? ==> SafeBatch(r.entries))
    ensures |Admins(Serve(users, roles, r))| >= 1
  {
    match r
    case BulkRequest(es) => SafeBatchKeepsAnAdmin(users, roles, es);
    case SingleRequest(id, role, permissions) => ApplyEntryCounts(users, Entry(Some(id), role, permissions));
  }

  lemma {:induction false} LastRoleIsAllowed(users: Users, roles: Roles, es: seq<Entry>, u: nat)
    requires u in users && !users[u].deleted && LastRole(es, u).Some?
    requires forall i :: 0 <= i < |es| && SetsRole(users, es[i]) ==> es[i].role.value in roles.allowed
    ensures LastRole(es, u).value in roles.allowed
  {
    var init, e := es[..|es| - 1], es[|es| - 1];
    assert forall i :: 0 <= i < |init| ==> es[i] == init[i];
    if e.userId == Some(u) && e.role.Some? {
      assert SetsRole(users, es[|es| - 1]);
    } else {
      LastRoleIsAllowed(users, roles, init, u);
    }
  }

  lemma ServeGivesAllowedRoles(users: Users, roles: Roles, r: Request, u: nat)
    requires u in users
    ensures u in Serve(users, roles, r)
    ensures Serve(users, roles, r)[u].role == users[u].role || Serve(users, roles, r)[u].role in roles.allowed
  {
    match r
    case BulkRequest(es) =>
      BulkAnswers(users, roles, es);
      EachEntryTakesEffect(users, es, u);
      if Bulk(users, roles, es).1 == Changed && !users[u].deleted && LastRole(es, u).Some? {
        LastRoleIsAllowed(users, roles, es, u);
      }
    case SingleRequest(id, role, permissions) => SetRoleAnswers(users, roles, id, role, permissions);
  }

  /** Over every run of the two endpoints each account keeps its role or has one of the role table. */
  lemma {:induction false} RolesComeFromTheTable(users: Users, roles: Roles, rs: seq<Request>, u: nat)
    requires u in users
    ensures u in Run(users, roles, rs)
    ensures Run(users, roles, rs)[u].role == users[u].role || Run(users, roles, rs)[u].role in roles.allowed
    decreases |rs|
  {
    if rs != [] {
      ServeGivesAllowedRoles(users, roles, rs[0], u);
      RolesComeFromTheTable(Serve(users, roles, rs[0]), roles, rs[1..], u);
    }
  }

  /** Every run of the two endpoints with safe batches keeps an admin; by `SafeBatchIff` no wider condition on
    the batches would do. That is for requests that run one after the other; module `AdminOverlaps` has those
    that overlap. */
  lemma {:induction false} AnAdminRemains(users: Users, roles: Roles, rs: seq<Request>)
    requires |Admins(users)| >= 1
    requires forall i :: 0 <= i < |rs| && rs[i].BulkRequest? ==> SafeBatch(rs[i].entries)
    ensures |Admins(Run(users, roles, rs))| >= 1
    decreases |rs|
  {
    if rs != [] {
      ServeKeepsAnAdmin(users, roles, rs[0]);
      AnAdminRemains(Serve(users, roles, rs[0]), roles, rs[1..]);
    }
  }
}
