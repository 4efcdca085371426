/** Which features a user's plans include: the two versions of the staged query, and the endpoint that maps
  features to a plan. */
module Entitlements {
  import opened Options
  import opened Sets
  import opened Keys

  datatype Subscription = Subscription(userId: int, planId: int, status: string)
  datatype Feature = Feature(id: int, key: string)

  datatype Tables = Tables(
    plans: set<int>, subscriptions: seq<Subscription>, features: seq<Feature>, planFeatures: seq<(int, int)>)

  predicate HasFeatureId(fs: seq<Feature>, id: int) { exists i :: 0 <= i < |fs| && fs[i].id == id }

  // Primary keys, the unique feature key, and foreign keys.
  predicate Consistent(t: Tables) {
    && (forall i, j :: 0 <= i < j < |t.features| ==>
          t.features[i].id != t.features[j].id && t.features[i].key != t.features[j].key)
    && (forall i, j :: 0 <= i < j < |t.planFeatures| ==> t.planFeatures[i] != t.planFeatures[j])
    && (forall i :: 0 <= i < |t.planFeatures| ==> HasFeatureId(t.features, t.planFeatures[i].1))
    && (forall i :: 0 <= i < |t.subscriptions| ==> t.subscriptions[i].planId in t.plans)
  }

  predicate FeatureIs(fs: seq<Feature>, id: int, key: string) { exists i :: 0 <= i < |fs| && fs[i] == Feature(id, key) }

  predicate Counts(status: string) { status == "active" || status == "trialing" }

  // ---------------------------------------------------------------------------------------------
  // The query: the user's plans first, then the mappings of the feature among them

  // `scalar_one_or_none() is not None`: it raises on a second row.
  datatype Answer = Yes | No | Raises

  function Rows(t: Tables, planIds: set<int>, key: string): set<int> {
    set i | 0 <= i < |t.planFeatures|
            && t.planFeatures[i].0 in planIds && FeatureIs(t.features, t.planFeatures[i].1, key)
  }

  function SecondStage(t: Tables, planIds: set<int>, key: string): Answer {
    if planIds == {} then No
    else
      var n := |Rows(t, planIds, key)|;
      if n == 0 then No else if n == 1 then Yes else Raises
  }

  function ActivePlans(t: Tables, userId: int): set<int> {
    set x | x in t.subscriptions && x.userId == userId && Counts(x.status) :: x.planId
  }

  function ActiveJoinedPlans(t: Tables, userId: int): set<int> {
    set x | x in t.subscriptions && x.planId in t.plans && x.userId == userId && Counts(x.status) :: x.planId
  }

  // `BillingService.user_has_feature`
  function ServiceHasFeature(t: Tables, userId: int, isSuperuser: bool, key: string): Answer {
    if isSuperuser then Yes
    else
      SecondStage(t, ActivePlans(t, userId), key)
  }

  // `BillingUseCases.user_has_feature`, which joins the plan table
  function UseCaseHasFeature(t: Tables, userId: int, key: string): Answer {
    SecondStage(t, ActiveJoinedPlans(t, userId), key)
  }

  // What the query is about: the active or trialing plans of the user that include the feature.
  predicate Subscribed(t: Tables, userId: int, plan: int) {
    exists x :: x in t.subscriptions && x.userId == userId && x.planId == plan
      && (x.status == "active" || x.status == "trialing")
  }

  predicate Includes(t: Tables, plan: int, key: string) {
    exists i :: 0 <= i < |t.planFeatures|
      && t.planFeatures[i].0 == plan && FeatureIs(t.features, t.planFeatures[i].1, key)
  }

  function EntitlingPlans(t: Tables, userId: int, key: string): set<int> {
    set p | p in t.plans && Subscribed(t, userId, p) && Includes(t, p, key)
  }

  // Rows and plans correspond, because a feature key names one feature and a pair occurs once.
  lemma RowsArePlans(t: Tables, planIds: set<int>, key: string)
    requires Consistent(t)
    ensures |Rows(t, planIds, key)| == |set p | p in planIds && Includes(t, p, key)|
  {
    var rows := Rows(t, planIds, key);
    var plans := set p | p in planIds && Includes(t, p, key);
    var f := (i: int) => if 0 <= i < |t.planFeatures| then t.planFeatures[i].0 else 0;
    forall p | p in plans ensures exists i :: i in rows && f(i) == p {
      var i :| 0 <= i < |t.planFeatures| && t.planFeatures[i].0 == p && FeatureIs(t.features, t.planFeatures[i].1, key);
      assert i in rows;
    }
    forall i, j | i in rows && j in rows && f(i) == f(j) ensures i == j {
      assert t.planFeatures[i].1 == t.planFeatures[j].1;
    }
    SameSize(rows, plans, f);
  }

  lemma SecondStageCounts(t: Tables, planIds: set<int>, key: string, plans: set<int>)
    requires Consistent(t) && plans == set p | p in planIds && Includes(t, p, key)
    ensures SecondStage(t, planIds, key) == if |plans| == 0 then No else if |plans| == 1 then Yes else Raises
  {
    RowsArePlans(t, planIds, key);
    assert Rows(t, {}, key) == {};
  }

  lemma FirstStages(t: Tables, userId: int)
    requires Consistent(t)
    ensures ActivePlans(t, userId) == ActiveJoinedPlans(t, userId)
    ensures forall p :: p in ActivePlans(t, userId) <==> p in t.plans && Subscribed(t, userId, p)
    ensures forall p :: Subscribed(t, userId, p) ==> p in t.plans
  {
  }

  /** Both versions answer alike for anyone but a superuser: yes iff exactly one plan of the user includes
    the feature, no iff none does, and an exception iff two or more do. */
  lemma FeatureAnswers(t: Tables, userId: int, key: string)
    requires Consistent(t)
    ensures ServiceHasFeature(t, userId, true, key) == Yes
    ensures ServiceHasFeature(t, userId, false, key) == UseCaseHasFeature(t, userId, key)
    ensures UseCaseHasFeature(t, userId, key) == Yes <==> exists p :: EntitlingPlans(t, userId, key) == {p}
    ensures UseCaseHasFeature(t, userId, key) == No <==>
      forall p :: !(Subscribed(t, userId, p) && Includes(t, p, key))
    ensures UseCaseHasFeature(t, userId, key) == Raises <==>
      exists p, q :: p != q && p in EntitlingPlans(t, userId, key) && q in EntitlingPlans(t, userId, key)
  {
    FirstStages(t, userId);
    var plans := EntitlingPlans(t, userId, key);
    assert UseCaseHasFeature(t, userId, key) == if |plans| == 0 then No else if |plans| == 1 then Yes else Raises by {
      SecondStageCounts(t, ActiveJoinedPlans(t, userId), key, plans);
    }
    assert forall p :: p in plans <==> Subscribed(t, userId, p) && Includes(t, p, key);
    SizeTells(plans);
    assert |plans| == 0 <==> forall p :: p !in plans;
  }

  // ---------------------------------------------------------------------------------------------
  // Mapping features to a plan

  function FindFeature(fs: seq<Feature>, key: string): (r: Option<int>)
    ensures r.Some? ==> FeatureIs(fs, r.value, key)
    ensures r.None? ==> forall i :: 0 <= i < |fs| ==> fs[i].key != key
  {
    if fs == [] then None
    else if fs[|fs| - 1].key == key then
      assert fs[|fs| - 1] == Feature(fs[|fs| - 1].id, key);
      Some(fs[|fs| - 1].id)
    else
      var r := FindFeature(fs[..|fs| - 1], key);
      assert r.Some? ==> FeatureIs(fs, r.value, key) by {
        if r.Some? {
          var i :| 0 <= i < |fs| - 1 && fs[..|fs| - 1][i] == Feature(r.value, key);
          assert fs[i] == Feature(r.value, key);
        }
      }
      r
  }

  function Ids(fs: seq<Feature>): seq<int> { seq(|fs|, i requires 0 <= i < |fs| => fs[i].id) }

  // Adds the feature if it is new, then the mapping if it is new.
  function MapOne(t: Tables, plan: int, key: string): Tables {
    var found := FindFeature(t.features, key);
    var id := if found.Some? then found.value else NextId(Ids(t.features));
    var features := if found.Some? then t.features else t.features + [Feature(id, key)];
    t.(features := features,
       planFeatures := if (plan, id) in t.planFeatures then t.planFeatures else t.planFeatures + [(plan, id)])
  }

  // A feature table that grows keeps what each row said, and a new key means no row said it before.
  lemma FeatureTableGrows(fs: seq<Feature>, x: Feature, id: int, key: string)
    ensures FeatureIs(fs + [x], id, key) <==> FeatureIs(fs, id, key) || x == Feature(id, key)
    ensures HasFeatureId(fs, id) ==> HasFeatureId(fs + [x], id)
  {
    assert (fs + [x])[|fs|] == x;
    if FeatureIs(fs, id, key) {
      var i :| 0 <= i < |fs| && fs[i] == Feature(id, key);
      assert (fs + [x])[i] == fs[i];
    }
    if HasFeatureId(fs, id) {
      var i :| 0 <= i < |fs| && fs[i].id == id;
      assert (fs + [x])[i] == fs[i];
    }
  }

  lemma NewIdIsAbove(fs: seq<Feature>)
    ensures forall i :: 0 <= i < |fs| ==> fs[i].id < NextId(Ids(fs))
  {
    assert forall i :: 0 <= i < |fs| ==> Ids(fs)[i] == fs[i].id;
  }

  // The first half of a turn of the loop: the key has a feature afterwards, and nothing else is different.
  lemma EnsureFeature(t: Tables, key: string, fs: seq<Feature>, id: int)
    requires Consistent(t)
    requires var found := FindFeature(t.features, key);
             if found.Some? then id == found.value && fs == t.features
             else id == NextId(Ids(t.features)) && fs == t.features + [Feature(id, key)]
    ensures Consistent(t.(features := fs)) && t.features <= fs && FeatureIs(fs, id, key)
    ensures forall p, k :: Includes(t.(features := fs), p, k) <==> Includes(t, p, k)
  {
    if FindFeature(t.features, key).None? {
      NewIdIsAbove(t.features);
      assert fs[|t.features|] == Feature(id, key);
      forall i | 0 <= i < |t.planFeatures| ensures HasFeatureId(fs, t.planFeatures[i].1) {
        FeatureTableGrows(t.features, Feature(id, key), t.planFeatures[i].1, key);
      }
      forall k, i | 0 <= i < |t.planFeatures|
        ensures FeatureIs(fs, t.planFeatures[i].1, k) <==> FeatureIs(t.features, t.planFeatures[i].1, k)
      {
        FeatureTableGrows(t.features, Feature(id, key), t.planFeatures[i].1, k);
        var j :| 0 <= j < |t.features| && t.features[j].id == t.planFeatures[i].1;
      }
      forall p, k ensures Includes(t.(features := fs), p, k) <==> Includes(t, p, k) {
      }
    }
  }

  // The second half: the plan includes the key afterwards, and nothing else is different.
  lemma EnsureMapping(t: Tables, plan: int, id: int, key: string, pf: seq<(int, int)>)
    requires Consistent(t) && FeatureIs(t.features, id, key)
    requires pf == if (plan, id) in t.planFeatures then t.planFeatures else t.planFeatures + [(plan, id)]
    ensures Consistent(t.(planFeatures := pf)) && t.planFeatures <= pf
    ensures forall p, k :: Includes(t.(planFeatures := pf), p, k) <==> Includes(t, p, k) || (p == plan && k == key)
  {
    var t' := t.(planFeatures := pf);
    var j :| 0 <= j < |t.features| && t.features[j] == Feature(id, key);
    assert HasFeatureId(t.features, id);
    forall p, k ensures Includes(t', p, k) <==> Includes(t, p, k) || (p == plan && k == key) {
      if Includes(t, p, k) {
        var i :| 0 <= i < |t.planFeatures| && t.planFeatures[i].0 == p && FeatureIs(t.features, t.planFeatures[i].1, k);
        assert pf[i] == t.planFeatures[i];
      }
      if p == plan && k == key {
        var i :| 0 <= i < |pf| && pf[i] == (plan, id);
        assert pf[i].0 == p && FeatureIs(t'.features, pf[i].1, k);
      }
    }
  }

  lemma MapOneMaps(t: Tables, plan: int, key: string)
    requires Consistent(t)
    ensures Consistent(MapOne(t, plan, key))
    ensures forall p, k :: Includes(MapOne(t, plan, key), p, k) <==> Includes(t, p, k) || (p == plan && k == key)
    ensures t.features <= MapOne(t, plan, key).features && t.planFeatures <= MapOne(t, plan, key).planFeatures
    ensures MapOne(t, plan, key).plans == t.plans && MapOne(t, plan, key).subscriptions == t.subscriptions
  {
    var found := FindFeature(t.features, key);
    var id := if found.Some? then found.value else NextId(Ids(t.features));
    var fs := MapOne(t, plan, key).features;
    EnsureFeature(t, key, fs, id);
    EnsureMapping(t.(features := fs), plan, id, key, MapOne(t, plan, key).planFeatures);
  }

  // From `t` to `t'` the plan gained exactly the given keys: every other plan is as it was, rows were only
  // added, and no feature key or pair occurs twice.
  ghost predicate Mapped(t: Tables, t': Tables, plan: int, keys: seq<string>) {
    && Consistent(t')
    && (forall p, k :: Includes(t', p, k) <==> Includes(t, p, k) || (p == plan && k in keys))
    && t.features <= t'.features && t.planFeatures <= t'.planFeatures
    && t'.plans == t.plans && t'.subscriptions == t.subscriptions
  }

  lemma MappedNext(t: Tables, t': Tables, plan: int, keys: seq<string>, key: string)
    requires Mapped(t, t', plan, keys)
    ensures Mapped(t, MapOne(t', plan, key), plan, keys + [key])
  {
    MapOneMaps(t', plan, key);
  }

  class BillingAdmin {
    var tables: Tables

    constructor (tables: Tables)
      ensures this.tables == tables
    {
      this.tables := tables;
    }

    // One turn of the loop.
    method MapFeature(plan: int, key: string)
      modifies this
      ensures tables == MapOne(old(tables), plan, key)
    {
      var feature := FindFeature(tables.features, key);
      var id: int;
      if feature.None? {
        id := NextId(Ids(tables.features));
        tables := tables.(features := tables.features + [Feature(id, key)]);
      } else {
        id := feature.value;
      }
      if (plan, id) !in tables.planFeatures {
        tables := tables.(planFeatures := tables.planFeatures + [(plan, id)]);
      }
    }

    /** Afterwards the plan includes exactly what it included and what was given, repetitions or not. */
    method MapPlanFeatures(plan: int, keys: seq<string>) returns (found: bool)
      requires Consistent(tables)
      modifies this
      ensures found <==> plan in old(tables).plans
      ensures !found ==> tables == old(tables)
      ensures found ==> Mapped(old(tables), tables, plan, keys)
    {
      if plan !in tables.plans { return false; }
      ghost var before := tables;
      var i := 0;
      while i < |keys|
        invariant 0 <= i <= |keys|
        invariant Mapped(before, tables, plan, keys[..i])
      {
        assert Mapped(before, MapOne(tables, plan, keys[i]), plan, keys[..i + 1]) by {
          MappedNext(before, tables, plan, keys[..i], keys[i]);
          assert keys[..i + 1] == keys[..i] + [keys[i]];
        }
        MapFeature(plan, keys[i]);
        i := i + 1;
      }
      assert keys[..i] == keys;
      return true;
    }
  }

  /** Mapping a feature to a plan entitles the plan's subscribers: a user none of whose plans included it is
    answered yes afterwards, if this is one of their plans. */
  lemma MappingEntitles(t: Tables, plan: int, key: string, userId: int)
    requires Consistent(t) && Subscribed(t, userId, plan) && UseCaseHasFeature(t, userId, key) == No
    ensures UseCaseHasFeature(MapOne(t, plan, key), userId, key) == Yes
  {
    MapOneMaps(t, plan, key);
    FeatureAnswers(t, userId, key);
    var t' := MapOne(t, plan, key);
    FeatureAnswers(t', userId, key);
    assert forall p :: Subscribed(t', userId, p) <==> Subscribed(t, userId, p);
    assert EntitlingPlans(t', userId, key) == {plan};
  }
}
