/** Role requests that overlap. Each first counts and checks on the table as it finds it, and later writes; the
  guard of one may count admins that another is about to demote. */
module AdminOverlaps {
  import opened Options
  import opened Sets
  import opened AdminRoles

  // A request that passed its checks, and the rows as it loaded them.
  datatype Checked = Checked(request: Request, loaded: Users)

  datatype Desk = Desk(users: Users, checked: map<nat, Checked>)

  datatype Step = Check(n: nat, request: Request) | Write(n: nat)

  function AnswerTo(users: Users, roles: Roles, r: Request): Answer {
    match r
    case BulkRequest(es) => Bulk(users, roles, es).1
    case SingleRequest(id, role, permissions) => SetRole(users, roles, id, role, permissions).1
  }

  function Entries(r: Request): seq<Entry> {
    match r
    case BulkRequest(es) => es
    case SingleRequest(id, role, permissions) => [Entry(Some(id), role, permissions)]
  }

  // An attribute set to the value it was loaded with issues no update; after each entry the row is loaded anew.
  function WriteEntry(table: Users, loaded: Users, e: Entry): (Users, Users) {
    if !Found(table, e.userId) || e.userId.value !in loaded then (table, loaded)
    else
      var u, was := table[e.userId.value], loaded[e.userId.value];
      var row := u.(
        role := if e.role.Some? && e.role.value != was.role then e.role.value else u.role,
        permissions :=
          if e.permissions.Some? && e.permissions.value != was.permissions then e.permissions.value
          else u.permissions);
      (table[e.userId.value := row], loaded[e.userId.value := row])
  }

  function WriteAll(table: Users, loaded: Users, es: seq<Entry>): (Users, Users) {
    if es == [] then (table, loaded)
    else
      var (t, l) := WriteAll(table, loaded, es[..|es| - 1]);
      WriteEntry(t, l, es[|es| - 1])
  }

  function Apply(d: Desk, roles: Roles, st: Step): Desk {
    match st
    case Check(n, r) =>
      if n in d.checked || AnswerTo(d.users, roles, r) != Changed then d
      else d.(checked := d.checked[n := Checked(r, d.users)])
    case Write(n) =>
      if n !in d.checked then d
      else
        var x := d.checked[n];
        Desk(WriteAll(d.users, x.loaded, Entries(x.request)).0, d.checked - {n})
  }

  function RunDesk(d: Desk, roles: Roles, steps: seq<Step>): Desk
    decreases |steps|
  {
    if steps == [] then d else RunDesk(Apply(d, roles, steps[0]), roles, steps[1..])
  }

  // ---------------------------------------------------------------------------------------------
  // A request that nothing overlaps

  lemma {:induction false} UndisturbedWrite(users: Users, es: seq<Entry>)
    ensures WriteAll(users, users, es) == (ApplyAll(users, es), ApplyAll(users, es))
  {
    if es != [] {
      UndisturbedWrite(users, es[..|es| - 1]);
    }
  }

  lemma RunTwo(d: Desk, roles: Roles, a: Step, b: Step)
    ensures RunDesk(d, roles, [a, b]) == Apply(Apply(d, roles, a), roles, b)
  {
    var d1 := Apply(d, roles, a);
    assert [a, b][1..] == [b] && [b][1..] == [];
    assert RunDesk(d1, roles, [b]) == RunDesk(Apply(d1, roles, b), roles, []);
  }

  lemma {:induction false} ErrorsAreNoChange(users: Users, roles: Roles, es: seq<Entry>)
    ensures FirstError(users, roles, es) != Some(Changed)
  {
    if es != [] {
      ErrorsAreNoChange(users, roles, es[..|es| - 1]);
    }
  }

  lemma ServesEntries(users: Users, roles: Roles, r: Request)
    ensures Serve(users, roles, r) ==
      if AnswerTo(users, roles, r) == Changed then ApplyAll(users, Entries(r)) else users
  {
    match r
    case BulkRequest(es) => ErrorsAreNoChange(users, roles, es);
    case SingleRequest(id, role, permissions) =>
      var e := Entry(Some(id), role, permissions);
      assert [e][..0] == [];
      assert ApplyAll(users, [e]) == ApplyEntry(ApplyAll(users, []), e);
  }

  /** If nothing comes between its checks and its writes, a request does what `AdminRoles` says. */
  lemma AloneIsServe(d: Desk, roles: Roles, n: nat, r: Request)
    requires n !in d.checked
    ensures RunDesk(d, roles, [Check(n, r), Write(n)]) == d.(users := Serve(d.users, roles, r))
  {
    RunTwo(d, roles, Check(n, r), Write(n));
    UndisturbedWrite(d.users, Entries(r));
    ServesEntries(d.users, roles, r);
    assert d.checked[n := Checked(r, d.users)] - {n} == d.checked;
  }

  // ---------------------------------------------------------------------------------------------
  // What a late write does

  // The same accounts, deleted or not: no request of these endpoints changes that.
  predicate SameAccounts(a: Users, b: Users) {
    a.Keys == b.Keys && forall u :: u in a ==> a[u].deleted == b[u].deleted
  }

  predicate IsNamed(es: seq<Entry>, u: nat) { exists i :: 0 <= i < |es| && es[i].userId == Some(u) }

  // The batch gives the user one role, in its first entry about them, and that is the one it loaded.
  predicate Confirms(loaded: Users, es: seq<Entry>, u: nat)
    requires u in loaded
  {
    es != [] &&
    var init, e := es[..|es| - 1], es[|es| - 1];
    if e.userId == Some(u) && e.role.Some? then !IsNamed(init, u) && e.role.value == loaded[u].role
    else Confirms(loaded, init, u)
  }

  lemma {:induction false} WriteKeepsAccounts(table: Users, loaded: Users, es: seq<Entry>)
    requires SameAccounts(table, loaded)
    ensures SameAccounts(table, WriteAll(table, loaded, es).0) && SameAccounts(table, WriteAll(table, loaded, es).1)
  {
    if es != [] {
      WriteKeepsAccounts(table, loaded, es[..|es| - 1]);
    }
  }

  // A user named is loaded anew; another is as it was.
  lemma {:induction false} LoadedAnew(table: Users, loaded: Users, es: seq<Entry>, u: nat)
    requires SameAccounts(table, loaded) && u in table && !table[u].deleted
    ensures u in WriteAll(table, loaded, es).0 && u in WriteAll(table, loaded, es).1
    ensures if IsNamed(es, u) then WriteAll(table, loaded, es).1[u] == WriteAll(table, loaded, es).0[u]
            else WriteAll(table, loaded, es).0[u] == table[u] && WriteAll(table, loaded, es).1[u] == loaded[u]
  {
    if es != [] {
      var init, e := es[..|es| - 1], es[|es| - 1];
      WriteKeepsAccounts(table, loaded, init);
      LoadedAnew(table, loaded, init, u);
      assert IsNamed(es, u) <==> IsNamed(init, u) || e.userId == Some(u) by {
        assert forall i :: 0 <= i < |init| ==> es[i] == init[i];
        assert es[|es| - 1] == e;
      }
    }
  }

  // The role the user has after the write.
  function WrittenRole(table: Users, loaded: Users, es: seq<Entry>, u: nat): string
    requires u in table && u in loaded
  {
    if LastRole(es, u).None? || Confirms(loaded, es, u) then table[u].role else LastRole(es, u).value
  }

  /** Each user gets the last role the batch names for them, whatever has been written since it was checked; but a
    batch that only confirms the role it loaded leaves the one that is there by now. */
  lemma {:induction false} LateWriteTakesEffect(table: Users, loaded: Users, es: seq<Entry>, u: nat)
    requires SameAccounts(table, loaded) && u in table && !table[u].deleted
    ensures u in WriteAll(table, loaded, es).0
    ensures WriteAll(table, loaded, es).0[u].role == WrittenRole(table, loaded, es, u)
  {
    if es != [] {
      var init, e := es[..|es| - 1], es[|es| - 1];
      WriteKeepsAccounts(table, loaded, init);
      LateWriteTakesEffect(table, loaded, init, u);
      LoadedAnew(table, loaded, init, u);
    }
  }

  // The same of permissions.
  predicate ConfirmsPermissions(loaded: Users, es: seq<Entry>, u: nat)
    requires u in loaded
  {
    es != [] &&
    var init, e := es[..|es| - 1], es[|es| - 1];
    if e.userId == Some(u) && e.permissions.Some?
    then !IsNamed(init, u) && e.permissions.value == loaded[u].permissions
    else ConfirmsPermissions(loaded, init, u)
  }

  /** Likewise each user gets the last permissions the batch names for them, unless it only confirms those it loaded. */
  lemma {:induction false} LatePermissionsTakeEffect(table: Users, loaded: Users, es: seq<Entry>, u: nat)
    requires SameAccounts(table, loaded) && u in table && !table[u].deleted
    ensures u in WriteAll(table, loaded, es).0
    ensures WriteAll(table, loaded, es).0[u].permissions ==
      if LastPermissions(es, u).None? || ConfirmsPermissions(loaded, es, u) then table[u].permissions
      else LastPermissions(es, u).value
  {
    if es != [] {
      var init, e := es[..|es| - 1], es[|es| - 1];
      WriteKeepsAccounts(table, loaded, init);
      LatePermissionsTakeEffect(table, loaded, init, u);
      LoadedAnew(table, loaded, init, u);
    }
  }

  /** So the write of a batch leaves no admin, whatever was written since it was checked, exactly if this is the
    admin role for nobody. */
  lemma LateWriteLeavesNoneIff(table: Users, loaded: Users, es: seq<Entry>)
    requires SameAccounts(table, loaded)
    ensures Admins(WriteAll(table, loaded, es).0) == {} <==>
      forall u :: u in table && !table[u].deleted ==> WrittenRole(table, loaded, es, u) != ADMIN
  {
    WriteKeepsAccounts(table, loaded, es);
    var after := WriteAll(table, loaded, es).0;
    forall u | u in table && !table[u].deleted
      ensures u in Admins(after) <==> WrittenRole(table, loaded, es, u) == ADMIN
    {
      LateWriteTakesEffect(table, loaded, es, u);
    }
    assert Admins(after) == {} <==> forall u :: u in table && !table[u].deleted ==> u !in Admins(after);
  }

  lemma {:induction false} ConfirmedRole(loaded: Users, es: seq<Entry>, u: nat)
    requires u in loaded && Confirms(loaded, es, u)
    ensures LastRole(es, u) == Some(loaded[u].role)
  {
    var e := es[|es| - 1];
    if !(e.userId == Some(u) && e.role.Some?) {
      ConfirmedRole(loaded, es[..|es| - 1], u);
    }
  }

  // ---------------------------------------------------------------------------------------------
  // When an admin remains

  predicate Safe(r: Request) { r.BulkRequest? ==> SafeBatch(r.entries) }

  lemma CheckedEndsAsAdmin(loaded: Users, roles: Roles, r: Request) returns (u: nat)
    requires Admins(loaded) != {} && Safe(r) && AnswerTo(loaded, roles, r) == Changed
    ensures u in loaded && !loaded[u].deleted && EndsAsAdmin(loaded, Entries(r), u)
  {
    assert |Admins(loaded)| >= 1;
    ServeKeepsAnAdmin(loaded, roles, r);
    ServesEntries(loaded, roles, r);
    AdminsAfter(loaded, Entries(r));
    u :| u in Admins(ApplyAll(loaded, Entries(r)));
  }

  predicate CheckedOk(users: Users, roles: Roles, x: Checked) {
    && SameAccounts(users, x.loaded) && Admins(x.loaded) != {}
    && Safe(x.request) && AnswerTo(x.loaded, roles, x.request) == Changed
  }

  // A safe request leaves an admin if nobody has lost the role since it was checked.
  lemma WriteKeepsAnAdmin(table: Users, roles: Roles, x: Checked)
    requires CheckedOk(table, roles, x) && Admins(x.loaded) <= Admins(table)
    ensures Admins(WriteAll(table, x.loaded, Entries(x.request)).0) != {}
  {
    var es := Entries(x.request);
    var u := CheckedEndsAsAdmin(x.loaded, roles, x.request);
    LateWriteTakesEffect(table, x.loaded, es, u);
    WriteKeepsAccounts(table, x.loaded, es);
    if Confirms(x.loaded, es, u) {
      ConfirmedRole(x.loaded, es, u);
    }
    assert x.loaded[u].role == ADMIN ==> u in Admins(x.loaded);
    assert u in Admins(WriteAll(table, x.loaded, es).0);
  }

  predicate AllSafe(steps: seq<Step>) { forall i :: 0 <= i < |steps| && steps[i].Check? ==> Safe(steps[i].request) }

  // At no write has a user lost the admin role since the request was checked.
  predicate Undemoted(d: Desk, roles: Roles, steps: seq<Step>)
    decreases |steps|
  {
    steps == [] ||
    ((steps[0].Write? && steps[0].n in d.checked ==> Admins(d.checked[steps[0].n].loaded) <= Admins(d.users))
     && Undemoted(Apply(d, roles, steps[0]), roles, steps[1..]))
  }

  predicate DeskOk(d: Desk, roles: Roles) {
    Admins(d.users) != {} && forall n :: n in d.checked ==> CheckedOk(d.users, roles, d.checked[n])
  }

  lemma StepKeepsDeskOk(d: Desk, roles: Roles, st: Step)
    requires DeskOk(d, roles) && (st.Check? ==> Safe(st.request))
    requires st.Write? && st.n in d.checked ==> Admins(d.checked[st.n].loaded) <= Admins(d.users)
    ensures DeskOk(Apply(d, roles, st), roles)
  {
    match st
    case Check(_, _) =>
    case Write(n) =>
      if n in d.checked {
        var x := d.checked[n];
        var after := WriteAll(d.users, x.loaded, Entries(x.request)).0;
        assert Admins(after) != {} by {
          WriteKeepsAnAdmin(d.users, roles, x);
        }
        WriteKeepsAccounts(d.users, x.loaded, Entries(x.request));
        forall k | k in d.checked ensures CheckedOk(after, roles, d.checked[k]) {
          assert CheckedOk(d.users, roles, d.checked[k]);
        }
      }
  }

  lemma {:induction false} RunKeepsDeskOk(d: Desk, roles: Roles, steps: seq<Step>)
    requires DeskOk(d, roles) && AllSafe(steps) && Undemoted(d, roles, steps)
    ensures DeskOk(RunDesk(d, roles, steps), roles)
    decreases |steps|
  {
    if steps != [] {
      StepKeepsDeskOk(d, roles, steps[0]);
      assert forall i :: 0 <= i < |steps[1..]| ==> steps[1..][i] == steps[i + 1];
      RunKeepsDeskOk(Apply(d, roles, steps[0]), roles, steps[1..]);
    }
  }

  /** A run of overlapping safe requests keeps an admin, if no user loses the admin role between the checks and the
    writes of a request. */
  lemma AnAdminRemainsUndemoted(users: Users, roles: Roles, steps: seq<Step>)
    requires Admins(users) != {} && AllSafe(steps) && Undemoted(Desk(users, map[]), roles, steps)
    ensures Admins(RunDesk(Desk(users, map[]), roles, steps).users) != {}
  {
    RunKeepsDeskOk(Desk(users, map[]), roles, steps);
  }

  // ---------------------------------------------------------------------------------------------
  // When none may remain

  lemma {:induction false} RunConcat(d: Desk, roles: Roles, a: seq<Step>, b: seq<Step>)
    ensures RunDesk(d, roles, a + b) == RunDesk(RunDesk(d, roles, a), roles, b)
    decreases |a|
  {
    if a == [] {
      assert a + b == b;
    } else {
      assert (a + b)[1..] == a[1..] + b;
      RunConcat(Apply(d, roles, a[0]), roles, a[1..], b);
    }
  }

  function Gives(u: nat, role: string): Request { SingleRequest(u, Some(role), None) }

  // A single request for a user nobody has written since.
  lemma LateGift(table: Users, loaded: Users, u: nat, role: string)
    requires u in table && u in loaded && table[u] == loaded[u] && !table[u].deleted
    ensures WriteAll(table, loaded, Entries(Gives(u, role))).0 == table[u := table[u].(role := role)]
  {
    var e := Entry(Some(u), Some(role), None);
    assert Entries(Gives(u, role)) == [e] && [e][..0] == [];
    assert WriteAll(table, loaded, [e]) == WriteEntry(table, loaded, e);
  }

  /** Two admins, each demoted by a request that was checked before the other was written: the guards pass and no
    admin is left. */
  lemma OverlappingDemotions(users: Users, roles: Roles, a: nat, b: nat, role: string)
    requires Admins(users) == {a, b} && a != b && role in roles.allowed && role != "" && role != ADMIN
    ensures var steps := [Check(0, Gives(a, role)), Check(1, Gives(b, role))] + [Write(0), Write(1)];
            AllSafe(steps) && RunDesk(Desk(users, map[]), roles, steps).checked == map[]
            && Admins(RunDesk(Desk(users, map[]), roles, steps).users) == {}
  {
    var d := Desk(users, map[]);
    var first, second := Checked(Gives(a, role), users), Checked(Gives(b, role), users);
    RunConcat(d, roles, [Check(0, Gives(a, role)), Check(1, Gives(b, role))], [Write(0), Write(1)]);
    RunTwo(d, roles, Check(0, Gives(a, role)), Check(1, Gives(b, role)));
    assert |Admins(users)| == 2;
    assert a in Admins(users) && b in Admins(users);
    var d2 := Desk(users, map[0 := first, 1 := second]);
    assert Apply(Apply(d, roles, Check(0, Gives(a, role))), roles, Check(1, Gives(b, role))) == d2;
    RunTwo(d2, roles, Write(0), Write(1));
    LateGift(users, users, a, role);
    var mid := users[a := users[a].(role := role)];
    LateGift(mid, users, b, role);
    assert d2.checked - {0} - {1} == map[];
    var end := mid[b := mid[b].(role := role)];
    forall u ensures u !in Admins(end) {
      assert u in Admins(end) ==> u in Admins(users);
    }
  }

  lemma OneDemoted(users: Users, a: nat, b: nat, role: string)
    requires a != b && a in Admins(users) && b in Admins(users) && Admins(users) != {a, b} && role != ADMIN
    ensures 2 <= |Admins(users[a := users[a].(role := role)])| < |Admins(users)|
  {
    var rest := Admins(users) - {a};
    assert Admins(users[a := users[a].(role := role)]) == rest;
    assert Admins(users) == {a, b} + (rest - {b});
    var x :| x in rest - {b};
    TwoElements(rest, x, b);
  }

  // From two admins on: all but two are demoted one after the other, and those two at once.
  lemma {:induction false} DemoteAll(users: Users, roles: Roles, role: string) returns (steps: seq<Step>)
    requires |Admins(users)| >= 2 && role in roles.allowed && role != "" && role != ADMIN
    ensures AllSafe(steps) && Admins(RunDesk(Desk(users, map[]), roles, steps).users) == {}
    decreases |Admins(users)|
  {
    var d := Desk(users, map[]);
    SizeTells(Admins(users));
    var a, b :| a != b && a in Admins(users) && b in Admins(users);
    if Admins(users) == {a, b} {
      OverlappingDemotions(users, roles, a, b, role);
      steps := [Check(0, Gives(a, role)), Check(1, Gives(b, role))] + [Write(0), Write(1)];
    } else {
      var users' := users[a := users[a].(role := role)];
      OneDemoted(users, a, b, role);
      AloneIsServe(d, roles, 0, Gives(a, role));
      var rest := DemoteAll(users', roles, role);
      steps := [Check(0, Gives(a, role)), Write(0)] + rest;
      RunConcat(d, roles, [Check(0, Gives(a, role)), Write(0)], rest);
    }
  }

  function Accounts(users: Users): set<nat> { set u | u in users && !users[u].deleted }

  lemma OneAccount(users: Users, loaded: Users)
    requires SameAccounts(users, loaded) && |Accounts(users)| <= 1 && Admins(users) != {} && Admins(loaded) != {}
    ensures Admins(loaded) <= Admins(users)
  {
    var a :| a in Admins(users);
    forall b | b in Admins(loaded) ensures b == a {
      if b != a {
        TwoElements(Accounts(users), a, b);
      }
    }
  }

  // With one account nothing can be lost: whatever is checked, its admin is that account.
  lemma LoneAdminStep(d: Desk, roles: Roles, st: Step)
    requires DeskOk(d, roles) && (st.Check? ==> Safe(st.request)) && |Accounts(d.users)| <= 1
    ensures DeskOk(Apply(d, roles, st), roles) && Accounts(Apply(d, roles, st).users) == Accounts(d.users)
  {
    if st.Write? && st.n in d.checked {
      var x := d.checked[st.n];
      OneAccount(d.users, x.loaded);
      WriteKeepsAccounts(d.users, x.loaded, Entries(x.request));
    }
    StepKeepsDeskOk(d, roles, st);
  }

  lemma {:induction false} LoneAdminRemains(d: Desk, roles: Roles, steps: seq<Step>)
    requires DeskOk(d, roles) && AllSafe(steps) && |Accounts(d.users)| <= 1
    ensures Admins(RunDesk(d, roles, steps).users) != {}
    decreases |steps|
  {
    if steps != [] {
      LoneAdminStep(d, roles, steps[0]);
      assert forall i :: 0 <= i < |steps[1..]| ==> steps[1..][i] == steps[i + 1];
      LoneAdminRemains(Apply(d, roles, steps[0]), roles, steps[1..]);
    }
  }

  lemma LoseAll(users: Users, roles: Roles, role: string) returns (steps: seq<Step>)
    requires Admins(users) != {} && ADMIN in roles.allowed && |Accounts(users)| >= 2
    requires role in roles.allowed && role != "" && role != ADMIN
    ensures AllSafe(steps) && Admins(RunDesk(Desk(users, map[]), roles, steps).users) == {}
  {
    var a :| a in Admins(users);
    SizeTells(Accounts(users));
    var x, y :| x != y && x in Accounts(users) && y in Accounts(users);
    var b := if x != a then x else y;
    if b in Admins(users) {
      TwoElements(Admins(users), a, b);
      steps := DemoteAll(users, roles, role);
    } else {
      var d := Desk(users, map[]);
      var users' := users[b := users[b].(role := ADMIN)];
      AloneIsServe(d, roles, 0, Gives(b, ADMIN));
      assert a in Admins(users') && b in Admins(users');
      TwoElements(Admins(users'), a, b);
      var rest := DemoteAll(users', roles, role);
      steps := [Check(0, Gives(b, ADMIN)), Write(0)] + rest;
      RunConcat(d, roles, [Check(0, Gives(b, ADMIN)), Write(0)], rest);
    }
  }

  /** From a table with an admin, some run of overlapping safe requests leaves none exactly if there are two
    accounts: the second is made an admin first, if it is not one. */
  lemma CanLoseAllAdminsIff(users: Users, roles: Roles, role: string)
    requires Admins(users) != {} && ADMIN in roles.allowed
    requires role in roles.allowed && role != "" && role != ADMIN
    ensures (exists steps :: AllSafe(steps) && Admins(RunDesk(Desk(users, map[]), roles, steps).users) == {})
            <==> |Accounts(users)| >= 2
  {
    var d := Desk(users, map[]);
    if |Accounts(users)| >= 2 {
      var steps := LoseAll(users, roles, role);
    } else {
      forall steps | AllSafe(steps) ensures Admins(RunDesk(d, roles, steps).users) != {} {
        LoneAdminRemains(d, roles, steps);
      }
    }
  }
}
