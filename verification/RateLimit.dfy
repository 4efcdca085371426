/** The sliding-window rate limiter in memory, and its Redis counterpart. */
module RateLimit {
  import opened Options

  type Key = (string, string)   // client, path

  const WINDOW := 60.0

  // ---------------------------------------------------------------------------------------------
  // In memory: the admission times of the last minute

  function Prune(ts: seq<real>, cutoff: real): seq<real> {
    if ts == [] then []
    else Prune(ts[..|ts| - 1], cutoff) + if ts[|ts| - 1] > cutoff then [ts[|ts| - 1]] else []
  }

  function AllowStep(kept: seq<real>, now: real, limit: int): (seq<real>, bool) {
    var recent := Prune(kept, now - WINDOW);
    if |recent| >= limit then (recent, false) else (recent + [now], true)
  }

  class RateLimiter {
    var requests: map<Key, seq<real>>

    constructor ()
      ensures requests == map[]
    {
      requests := map[];
    }

    function Kept(key: Key): seq<real>
      reads this
    {
      if key in requests then requests[key] else []
    }

    method AllowRequest(client: string, path: string, limit: int, now: real) returns (allowed: bool)
      modifies this
      ensures var (kept, ok) := AllowStep(old(Kept((client, path))), now, limit);
              requests == old(requests)[(client, path) := kept] && allowed == ok
    {
      var key := (client, path);
      var before := Kept(key);
      var cutoff := now - WINDOW;
      var recent: seq<real> := [];
      var i := 0;
      while i < |before|
        invariant 0 <= i <= |before|
        invariant recent == Prune(before[..i], cutoff)
      {
        assert before[..i + 1][..i] == before[..i];
        if before[i] > cutoff { recent := recent + [before[i]]; }
        i := i + 1;
      }
      assert before[..i] == before;
      requests := requests[key := recent];
      if |recent| >= limit { return false; }
      requests := requests[key := recent + [now]];
      return true;
    }

    method Reset()
      modifies this
      ensures requests == map[]
    {
      requests := map[];
    }
  }

  // ---------------------------------------------------------------------------------------------
  // Every run of one key under one limit

  predicate Nondecreasing(ts: seq<real>) { forall i, j :: 0 <= i < j < |ts| ==> ts[i] <= ts[j] }
  predicate Increasing(ts: seq<real>) { forall i, j :: 0 <= i < j < |ts| ==> ts[i] < ts[j] }

  // After the requests at `times`: the list kept, every admission ever made, the last answer.
  datatype Log = Log(kept: seq<real>, admitted: seq<real>, answer: bool)

  const NO_LOG := Log([], [], false)

  function Extend(p: Log, now: real, limit: int): Log {
    var (kept, ok) := AllowStep(p.kept, now, limit);
    Log(kept, if ok then p.admitted + [now] else p.admitted, ok)
  }

  function MemoryLog(times: seq<real>, limit: int): Log {
    if times == [] then NO_LOG else Extend(MemoryLog(times[..|times| - 1], limit), times[|times| - 1], limit)
  }

  // The number of times in the half-open interval from `lo` to `hi`.
  function CountIn(ts: seq<real>, lo: real, hi: real): nat {
    if ts == [] then 0
    else CountIn(ts[..|ts| - 1], lo, hi) + if lo <= ts[|ts| - 1] < hi then 1 else 0
  }

  lemma PruneSnoc(ts: seq<real>, now: real, c: real)
    ensures Prune(ts + [now], c) == Prune(ts, c) + if now > c then [now] else []
  {
    assert (ts + [now])[..|ts|] == ts;
  }

  lemma {:induction false} PruneTwice(ts: seq<real>, c: real, d: real)
    requires c <= d
    ensures Prune(Prune(ts, c), d) == Prune(ts, d)
  {
    if ts != [] {
      var init, last := ts[..|ts| - 1], ts[|ts| - 1];
      PruneTwice(init, c, d);
      PruneSnoc(Prune(init, c), last, d);
      assert Prune(init, c) + [] == Prune(init, c) && Prune(init, d) + [] == Prune(init, d);
    }
  }

  lemma CountSnoc(ts: seq<real>, now: real, lo: real, hi: real)
    ensures CountIn(ts + [now], lo, hi) == CountIn(ts, lo, hi) + if lo <= now < hi then 1 else 0
  {
    assert (ts + [now])[..|ts|] == ts;
  }

  lemma {:induction false} PruneMembers(ts: seq<real>, c: real, x: real)
    ensures x in Prune(ts, c) <==> x in ts && x > c
  {
    if ts != [] {
      PruneMembers(ts[..|ts| - 1], c, x);
      assert ts == ts[..|ts| - 1] + [ts[|ts| - 1]];
    }
  }

  // Of sorted times, those after the cutoff are at least as many as follow any one of them.
  lemma {:induction false} PruneCountsSuffix(ts: seq<real>, c: real, k: nat)
    requires Nondecreasing(ts) && k <= |ts| && (k < |ts| ==> ts[k] > c)
    ensures |Prune(ts, c)| >= |ts| - k
  {
    if k < |ts| {
      PruneCountsSuffix(ts[..|ts| - 1], c, k);
    }
  }

  lemma {:induction false} CountInWindow(ts: seq<real>, lo: real, hi: real, c: real)
    requires c < lo
    ensures CountIn(ts, lo, hi) <= |Prune(ts, c)|
  {
    if ts != [] {
      CountInWindow(ts[..|ts| - 1], lo, hi, c);
    }
  }

  predicate Among(xs: seq<real>, times: seq<real>) { forall i :: 0 <= i < |xs| ==> xs[i] in times }

  lemma ExtendInOrder(p: Log, init: seq<real>, now: real, limit: int)
    requires Nondecreasing(init + [now]) && Nondecreasing(p.admitted) && Among(p.admitted, init)
    ensures Nondecreasing(Extend(p, now, limit).admitted) && Among(Extend(p, now, limit).admitted, init + [now])
  {
    var times := init + [now];
    assert times[|init|] == now;
    forall i | 0 <= i < |p.admitted| ensures p.admitted[i] <= now && p.admitted[i] in times {
      var j :| 0 <= j < |init| && init[j] == p.admitted[i];
      assert times[j] == init[j];
    }
  }

  // Admissions are made at request times, in order.
  lemma {:induction false} AdmittedInOrder(times: seq<real>, limit: int)
    requires Nondecreasing(times)
    ensures Nondecreasing(MemoryLog(times, limit).admitted) && Among(MemoryLog(times, limit).admitted, times)
  {
    if times != [] {
      var init, now := times[..|times| - 1], times[|times| - 1];
      AdmittedInOrder(init, limit);
      assert times == init + [now];
      ExtendInOrder(MemoryLog(init, limit), init, now, limit);
    }
  }

  // The list kept and the history agree as seen from any time after `at`.
  predicate Agree(p: Log, at: real) { Prune(p.kept, at - WINDOW) == Prune(p.admitted, at - WINDOW) }

  lemma ExtendAgrees(p: Log, at: real, limit: int, now: real)
    requires at <= now && Agree(p, at)
    ensures Agree(Extend(p, at, limit), now)
  {
    var recent, d := Prune(p.kept, at - WINDOW), now - WINDOW;
    PruneTwice(p.admitted, at - WINDOW, d);
    PruneSnoc(recent, at, d);
    PruneSnoc(p.admitted, at, d);
  }

  /** The list kept agrees with the full history: dropping old admissions loses nothing that any later
    request would count. */
  lemma {:induction false} KeptAgreesWithHistory(times: seq<real>, limit: int, now: real)
    requires Nondecreasing(times) && (times != [] ==> times[|times| - 1] <= now)
    ensures Prune(MemoryLog(times, limit).kept, now - 60.0) == Prune(MemoryLog(times, limit).admitted, now - 60.0)
  {
    if times != [] {
      var init, at := times[..|times| - 1], times[|times| - 1];
      KeptAgreesWithHistory(init, limit, at);
      ExtendAgrees(MemoryLog(init, limit), at, limit, now);
    }
  }

  lemma ExtendAnswers(p: Log, now: real, limit: int)
    requires Agree(p, now)
    ensures Extend(p, now, limit).answer <==> |Prune(p.admitted, now - WINDOW)| < limit
  {
  }

  // The times after the cutoff, by their places.
  function Later(ts: seq<real>, cutoff: real): set<int> { set i | 0 <= i < |ts| && cutoff < ts[i] }

  lemma {:induction false} PruneKeepsLater(ts: seq<real>, c: real)
    ensures |Prune(ts, c)| == |Later(ts, c)|
  {
    if ts != [] {
      var n := |ts| - 1;
      PruneKeepsLater(ts[..n], c);
      assert Later(ts, c) == Later(ts[..n], c) + if c < ts[n] then {n} else {};
    }
  }

  lemma AnswerAt(init: seq<real>, now: real, limit: int)
    requires Nondecreasing(init) && (init != [] ==> init[|init| - 1] <= now)
    ensures var p := MemoryLog(init, limit);
            Extend(p, now, limit).answer <==> |Later(p.admitted, now - 60.0)| < limit
  {
    var p := MemoryLog(init, limit);
    KeptAgreesWithHistory(init, limit, now);
    ExtendAnswers(p, now, limit);
    PruneKeepsLater(p.admitted, now - WINDOW);
  }

  /** A request is refused exactly when the minute that ends with it already holds `limit` admissions. */
  lemma RefusedIffWindowFull(times: seq<real>, limit: int)
    requires Nondecreasing(times) && times != []
    ensures var init, now := times[..|times| - 1], times[|times| - 1];
            MemoryLog(times, limit).answer <==> |Later(MemoryLog(init, limit).admitted, now - 60.0)| < limit
  {
    var init, now := times[..|times| - 1], times[|times| - 1];
    var p := MemoryLog(init, limit);
    assert MemoryLog(times, limit).answer == Extend(p, now, limit).answer;
    assert Extend(p, now, limit).answer <==> |Later(p.admitted, now - 60.0)| < limit by {
      AnswerAt(init, now, limit);
    }
  }

  // One more admission fits a window that ends no later than a minute after it begins.
  lemma ExtendKeepsBound(p: Log, now: real, limit: int, lo: real, hi: real)
    requires hi <= lo + WINDOW && Agree(p, now)
    requires CountIn(p.admitted, lo, hi) <= if limit < 0 then 0 else limit
    ensures CountIn(Extend(p, now, limit).admitted, lo, hi) <= if limit < 0 then 0 else limit
  {
    CountSnoc(p.admitted, now, lo, hi);
    if lo <= now < hi {
      CountInWindow(p.admitted, lo, hi, now - WINDOW);
    }
  }

  /** No 60-second window of any run contains more than `limit` admissions. */
  lemma {:induction false} AtMostLimitPerWindow(times: seq<real>, limit: int, lo: real, hi: real)
    requires Nondecreasing(times) && hi <= lo + 60.0
    ensures CountIn(MemoryLog(times, limit).admitted, lo, hi) <= if limit < 0 then 0 else limit
  {
    if times != [] {
      var init, now := times[..|times| - 1], times[|times| - 1];
      AtMostLimitPerWindow(init, limit, lo, hi);
      KeptAgreesWithHistory(init, limit, now);
      ExtendKeepsBound(MemoryLog(init, limit), now, limit, lo, hi);
    }
  }

  lemma ExtendKeepsSpacing(p: Log, now: real, limit: nat, i: nat)
    requires Agree(p, now) && Nondecreasing(p.admitted)
    requires i + limit == |p.admitted| < |Extend(p, now, limit).admitted|
    ensures Extend(p, now, limit).admitted[i] + WINDOW <= now
  {
    if limit > 0 && p.admitted[i] > now - WINDOW {
      PruneCountsSuffix(p.admitted, now - WINDOW, i);
    }
  }

  /** The same bound as spacing: an admission and the `limit`-th after it are a minute apart or more. */
  lemma {:induction false} AdmissionsAreSpaced(times: seq<real>, limit: nat, i: nat)
    requires Nondecreasing(times) && i + limit < |MemoryLog(times, limit).admitted|
    ensures MemoryLog(times, limit).admitted[i] + 60.0 <= MemoryLog(times, limit).admitted[i + limit]
  {
    var init, now := times[..|times| - 1], times[|times| - 1];
    var p := MemoryLog(init, limit);
    if i + limit < |p.admitted| {
      AdmissionsAreSpaced(init, limit, i);
    } else {
      AdmittedInOrder(init, limit);
      KeptAgreesWithHistory(init, limit, now);
      ExtendKeepsSpacing(p, now, limit, i);
    }
  }

  // ---------------------------------------------------------------------------------------------
  // In Redis: a sorted set of request times, refused requests included

  // A member is the text of its score, so equal times are one member.
  datatype ZSet = ZSet(scores: set<real>, expiresAt: Option<real>)

  const NO_ZSET := ZSet({}, None)

  function RedisStep(z: ZSet, now: real, limit: int, window: int): (ZSet, bool) {
    var live := if z.expiresAt.Some? && now >= z.expiresAt.value then {} else z.scores;
    var kept := set s | s in live && !(0.0 <= s <= now - window as real);
    var scores := kept + {now};
    (ZSet(scores, Some(now + window as real)), |scores| <= limit)
  }

  class RedisRateLimiter {
    var zsets: map<string, ZSet>

    constructor ()
      ensures zsets == map[]
    {
      zsets := map[];
    }

    function At(key: string): ZSet
      reads this
    {
      if key in zsets then zsets[key] else NO_ZSET
    }

    // The four commands of the pipeline, in order. The outage fallback is not part of this model.
    method AllowRequest(client: string, path: string, limit: int, now: real, window: int := 60) returns (allowed: bool)
      modifies this
      ensures var key := "ratelimit:" + client + ":" + path;
              var (z, ok) := RedisStep(old(At(key)), now, limit, window);
              zsets == old(zsets)[key := z] && allowed == ok
    {
      var key := "ratelimit:" + client + ":" + path;
      var z := At(key);
      if z.expiresAt.Some? && now >= z.expiresAt.value { z := NO_ZSET; }
      var scores := set s | s in z.scores && !(0.0 <= s <= now - window as real);
      scores := scores + {now};
      var count := |scores|;
      zsets := zsets[key := ZSet(scores, Some(now + window as real))];
      return count <= limit;
    }
  }

  datatype RedisLog = RedisLog(zset: ZSet, admitted: seq<real>, answer: bool)

  function RedisExtend(p: RedisLog, now: real, limit: int): RedisLog {
    var (z, ok) := RedisStep(p.zset, now, limit, 60);
    RedisLog(z, if ok then p.admitted + [now] else p.admitted, ok)
  }

  function RedisRun(times: seq<real>, limit: int): RedisLog {
    if times == [] then RedisLog(NO_ZSET, [], false)
    else RedisExtend(RedisRun(times[..|times| - 1], limit), times[|times| - 1], limit)
  }

  function Persist(p: RedisLog): RedisLog { p.(zset := ZSet(p.zset.scores, None)) }

  // The same commands without `expire`.
  function EternalRun(times: seq<real>, limit: int): RedisLog {
    if times == [] then RedisLog(NO_ZSET, [], false)
    else Persist(RedisExtend(EternalRun(times[..|times| - 1], limit), times[|times| - 1], limit))
  }

  predicate Clock(times: seq<real>) {
    Nondecreasing(times) && forall i :: 0 <= i < |times| ==> 0.0 <= times[i]
  }

  // The request times after the cutoff.
  function Recent(times: seq<real>, cutoff: real): set<real> { set t | t in times && cutoff < t }

  lemma ClockBounds(init: seq<real>, now: real)
    requires Clock(init + [now])
    ensures Clock(init)
    ensures forall t :: t in init ==> 0.0 <= t <= now && t <= init[|init| - 1]
    ensures init != [] ==> init[|init| - 1] <= now && init[|init| - 1] in init
  {
    var times := init + [now];
    assert forall i :: 0 <= i < |init| ==> times[i] == init[i];
    assert times[|init|] == now;
  }

  // On a clock, one request on: both expiry and `zremrangebyscore` leave what is recent.
  lemma RecentStep(init: seq<real>, now: real, z: ZSet, limit: int)
    requires Clock(init + [now])
    requires init == [] ==> z == NO_ZSET
    requires init != [] ==> z.scores == Recent(init, init[|init| - 1] - WINDOW)
    requires init != [] ==> z.expiresAt == None || z.expiresAt == Some(init[|init| - 1] + WINDOW)
    ensures RedisStep(z, now, limit, 60).0.scores == Recent(init + [now], now - WINDOW)
  {
    ClockBounds(init, now);
    assert forall t :: t in init + [now] <==> t in init || t == now;
  }

  // What the sorted set holds: the request times of the minute before the last request.
  lemma {:induction false} ScoresAreRecentRequests(times: seq<real>, limit: int)
    requires Clock(times) && times != []
    ensures RedisRun(times, limit).zset.scores == Recent(times, times[|times| - 1] - WINDOW)
    ensures RedisRun(times, limit).zset.expiresAt == Some(times[|times| - 1] + WINDOW)
  {
    var init, now := times[..|times| - 1], times[|times| - 1];
    assert times == init + [now];
    ClockBounds(init, now);
    if init != [] {
      ScoresAreRecentRequests(init, limit);
    }
    var p := RedisRun(init, limit);
    RecentStep(init, now, p.zset, limit);
    assert RedisRun(times, limit) == RedisExtend(p, now, limit);
  }

  lemma PersistInvisible(init: seq<real>, now: real, p: RedisLog, limit: int)
    requires Clock(init + [now])
    requires init == [] ==> p.zset == NO_ZSET
    requires init != [] ==> p.zset == ZSet(Recent(init, init[|init| - 1] - WINDOW), Some(init[|init| - 1] + WINDOW))
    ensures Persist(RedisExtend(Persist(p), now, limit)) == Persist(RedisExtend(p, now, limit))
  {
    RecentStep(init, now, p.zset, limit);
    RecentStep(init, now, Persist(p).zset, limit);
  }

  /** The key's time to live never changes an answer: expiry removes only what the next request would
    remove anyway. */
  lemma {:induction false} ExpireIsInvisible(times: seq<real>, limit: int)
    requires Clock(times)
    ensures EternalRun(times, limit) == Persist(RedisRun(times, limit))
  {
    if times != [] {
      var init, now := times[..|times| - 1], times[|times| - 1];
      assert times == init + [now];
      ClockBounds(init, now);
      ExpireIsInvisible(init, limit);
      if init != [] {
        ScoresAreRecentRequests(init, limit);
      }
      PersistInvisible(init, now, RedisRun(init, limit), limit);
    }
  }

  lemma {:induction false} DistinctFit(ts: seq<real>, s: set<real>)
    requires Increasing(ts) && forall x :: x in ts ==> x in s
    ensures |ts| <= |s|
  {
    if ts != [] {
      var init, last := ts[..|ts| - 1], ts[|ts| - 1];
      assert forall x :: x in init ==> x in ts && x < last;
      DistinctFit(init, s - {last});
      assert last in ts;
    }
  }

  // No two requests after the cutoff came at the same time.
  predicate NoTie(times: seq<real>, cutoff: real) {
    forall i, j :: 0 <= i < j < |times| && cutoff < times[i] ==> times[i] != times[j]
  }

  lemma NoTieBefore(init: seq<real>, now: real, c: real)
    requires NoTie(init + [now], c)
    ensures NoTie(init, c) && (c < now ==> now !in init)
  {
    var times := init + [now];
    assert forall i :: 0 <= i < |init| ==> times[i] == init[i];
    assert times[|init|] == now;
  }

  lemma NextIncreasing(earlier: seq<real>, init: seq<real>, now: real, c: real)
    requires Nondecreasing(init + [now]) && Among(earlier, init) && Increasing(Prune(earlier, c))
    requires c < now ==> now !in init
    ensures Increasing(Prune(earlier, c) + if now > c then [now] else [])
  {
    var recent, times := Prune(earlier, c), init + [now];
    forall i | 0 <= i < |recent| && c < now ensures recent[i] < now {
      PruneMembers(earlier, c, recent[i]);
      var j :| 0 <= j < |init| && init[j] == recent[i];
      assert times[j] <= times[|init|];
    }
  }

  // Admissions after the cutoff are then distinct.
  lemma {:induction false} RecentIncreasing(times: seq<real>, limit: int, c: real)
    requires Nondecreasing(times) && NoTie(times, c)
    ensures Increasing(Prune(MemoryLog(times, limit).admitted, c))
  {
    if times != [] {
      var init, now := times[..|times| - 1], times[|times| - 1];
      assert times == init + [now];
      NoTieBefore(init, now, c);
      RecentIncreasing(init, limit, c);
      AdmittedInOrder(init, limit);
      NextIncreasing(MemoryLog(init, limit).admitted, init, now, c);
      var p := MemoryLog(init, limit);
      assert MemoryLog(times, limit) == Extend(p, now, limit);
      PruneSnoc(p.admitted, now, c);
    }
  }

  // Earlier distinct request times of the last minute are fewer than all request times of the last minute.
  lemma EarlierAreFewer(earlier: seq<real>, init: seq<real>, now: real)
    requires Among(earlier, init) && now !in init && Increasing(Prune(earlier, now - WINDOW))
    ensures |Prune(earlier, now - WINDOW)| < |Recent(init + [now], now - WINDOW)|
  {
    var recent, scores := Prune(earlier, now - WINDOW), Recent(init + [now], now - WINDOW);
    assert (init + [now])[|init|] == now;
    forall x | x in recent ensures x in scores - {now} {
      PruneMembers(earlier, now - WINDOW, x);
      var j :| 0 <= j < |init| && init[j] == x;
      assert (init + [now])[j] == x;
    }
    DistinctFit(recent, scores - {now});
  }

  lemma RedisAnswers(times: seq<real>, limit: int)
    requires times != []
    ensures RedisRun(times, limit).answer <==> |RedisRun(times, limit).zset.scores| <= limit
  {
    var init, now := times[..|times| - 1], times[|times| - 1];
    assert RedisRun(times, limit) == RedisExtend(RedisRun(init, limit), now, limit);
  }

  /** When the two limiters part, at the last request of any stream of a clock: Redis alone admits exactly if
    the distinct request times of the minute fit the limit and the in-memory admissions of the minute reach
    it; the in-memory limiter alone admits exactly if neither is so. */
  lemma DivergeIff(times: seq<real>, limit: int)
    requires Clock(times) && times != []
    ensures var now := times[|times| - 1];
            var distinct := |Recent(times, now - 60.0)|;
            var admitted := |Later(MemoryLog(times[..|times| - 1], limit).admitted, now - 60.0)|;
            && (RedisRun(times, limit).answer && !MemoryLog(times, limit).answer <==> distinct <= limit <= admitted)
            && (!RedisRun(times, limit).answer && MemoryLog(times, limit).answer <==> admitted < limit < distinct)
  {
    RefusedIffWindowFull(times, limit);
    ScoresAreRecentRequests(times, limit);
    RedisAnswers(times, limit);
  }

  lemma FewerAdmissions(init: seq<real>, now: real, limit: int)
    requires Nondecreasing(init + [now]) && NoTie(init + [now], now - WINDOW)
    ensures |Prune(MemoryLog(init, limit).admitted, now - WINDOW)| < |Recent(init + [now], now - WINDOW)|
  {
    assert forall i :: 0 <= i < |init| ==> (init + [now])[i] == init[i];
    NoTieBefore(init, now, now - WINDOW);
    AdmittedInOrder(init, limit);
    RecentIncreasing(init, limit, now - WINDOW);
    EarlierAreFewer(MemoryLog(init, limit).admitted, init, now);
  }

  lemma SubsetAt(init: seq<real>, now: real, limit: int)
    requires Clock(init + [now]) && NoTie(init + [now], now - WINDOW)
    ensures RedisRun(init + [now], limit).answer ==> MemoryLog(init + [now], limit).answer
  {
    var times := init + [now];
    assert times[..|times| - 1] == init && times[|times| - 1] == now;
    assert |Later(MemoryLog(init, limit).admitted, now - WINDOW)| < |Recent(times, now - WINDOW)| by {
      FewerAdmissions(init, now, limit);
      PruneKeepsLater(MemoryLog(init, limit).admitted, now - WINDOW);
    }
    assert RedisRun(times, limit).answer && !MemoryLog(times, limit).answer ==>
        |Recent(times, now - WINDOW)| <= |Later(MemoryLog(init, limit).admitted, now - WINDOW)| by {
      DivergeIff(times, limit);
    }
  }

  /** At a request with no two at the same time in the minute that ends with it, what Redis admits the
    in-memory limiter admits on the same stream: only ties let more through. */
  lemma RedisAdmitsSubset(times: seq<real>, limit: int)
    requires Clock(times) && times != [] && NoTie(times, times[|times| - 1] - 60.0)
    ensures RedisRun(times, limit).answer ==> MemoryLog(times, limit).answer
  {
    var init, now := times[..|times| - 1], times[|times| - 1];
    assert times == init + [now];
    SubsetAt(init, now, limit);
  }

  lemma {:induction false} RedisCountsLess(times: seq<real>, limit: int, lo: real, hi: real)
    requires Clock(times) && Increasing(times)
    ensures CountIn(RedisRun(times, limit).admitted, lo, hi) <= CountIn(MemoryLog(times, limit).admitted, lo, hi)
  {
    if times != [] {
      var init, now := times[..|times| - 1], times[|times| - 1];
      RedisCountsLess(init, limit, lo, hi);
      RedisAdmitsSubset(times, limit);
      CountSnoc(RedisRun(init, limit).admitted, now, lo, hi);
      CountSnoc(MemoryLog(init, limit).admitted, now, lo, hi);
    }
  }

  function TimesIn(ts: seq<real>, lo: real, hi: real): set<real> { set t | t in ts && lo <= t < hi }

  lemma {:induction false} RedisAdmitsRequests(times: seq<real>, limit: int, t: real)
    requires t in RedisRun(times, limit).admitted
    ensures t in times
  {
    if times != [] {
      var init, now := times[..|times| - 1], times[|times| - 1];
      assert RedisRun(times, limit) == RedisExtend(RedisRun(init, limit), now, limit);
      if t in RedisRun(init, limit).admitted {
        RedisAdmitsRequests(init, limit, t);
      }
    }
  }

  // The admission times of a window that ends with an admission are among its scores.
  lemma WindowFitsScores(times: seq<real>, limit: int, lo: real, hi: real)
    requires Clock(times) && times != [] && hi <= lo + WINDOW && RedisRun(times, limit).answer
    requires lo <= times[|times| - 1] < hi
    ensures |TimesIn(RedisRun(times, limit).admitted, lo, hi)| <= limit
  {
    var found, scores := TimesIn(RedisRun(times, limit).admitted, lo, hi), RedisRun(times, limit).zset.scores;
    RedisAnswers(times, limit);
    assert found <= scores by {
      ScoresAreRecentRequests(times, limit);
      forall t | t in found ensures t in scores { RedisAdmitsRequests(times, limit, t); }
    }
    SubsetSize(found, scores);
  }

  lemma SubsetSize(a: set<real>, b: set<real>)
    requires a <= b
    ensures |a| <= |b|
  {
    assert b == a + (b - a);
  }

  lemma TimesInSnoc(ts: seq<real>, now: real, lo: real, hi: real)
    requires !(lo <= now < hi)
    ensures TimesIn(ts + [now], lo, hi) == TimesIn(ts, lo, hi)
  {
  }

  lemma RedisExtends(times: seq<real>, limit: int)
    requires times != []
    ensures var init, now := times[..|times| - 1], times[|times| - 1];
            RedisRun(times, limit).admitted
            == RedisRun(init, limit).admitted + if RedisRun(times, limit).answer then [now] else []
  {
    var init, now := times[..|times| - 1], times[|times| - 1];
    assert RedisRun(times, limit) == RedisExtend(RedisRun(init, limit), now, limit);
  }

  lemma {:induction false} DistinctTimesPerWindow(times: seq<real>, limit: int, lo: real, hi: real)
    requires Clock(times) && hi <= lo + WINDOW
    ensures |TimesIn(RedisRun(times, limit).admitted, lo, hi)| <= if limit < 0 then 0 else limit
  {
    if times != [] {
      var init, now := times[..|times| - 1], times[|times| - 1];
      if RedisRun(times, limit).answer && lo <= now < hi {
        WindowFitsScores(times, limit, lo, hi);
      } else {
        DistinctTimesPerWindow(init, limit, lo, hi);
        RedisExtends(times, limit);
        if RedisRun(times, limit).answer {
          TimesInSnoc(RedisRun(init, limit).admitted, now, lo, hi);
        }
      }
    }
  }

  /** The bound that the Redis limiter keeps, on every stream of a clock: no 60-second window holds admissions
    at more than `limit` distinct times; where all request times are distinct, no more than `limit`
    admissions. */
  lemma RedisAtMostLimitPerWindow(times: seq<real>, limit: int, lo: real, hi: real)
    requires Clock(times) && hi <= lo + 60.0
    ensures |TimesIn(RedisRun(times, limit).admitted, lo, hi)| <= if limit < 0 then 0 else limit
    ensures Increasing(times) ==> CountIn(RedisRun(times, limit).admitted, lo, hi) <= if limit < 0 then 0 else limit
  {
    DistinctTimesPerWindow(times, limit, lo, hi);
    if Increasing(times) {
      RedisCountsLess(times, limit, lo, hi);
      AtMostLimitPerWindow(times, limit, lo, hi);
    }
  }

  // n requests at one instant.
  function Burst(t: real, n: nat): seq<real> { seq(n, _ => t) }

  lemma BurstSnoc(t: real, n: nat)
    ensures Burst(t, n + 1)[..n] == Burst(t, n) && Burst(t, n + 1)[n] == t && Burst(t, n + 1) == Burst(t, n) + [t]
  {
  }

  lemma {:induction false} PruneBurst(t: real, n: nat)
    ensures Prune(Burst(t, n), t - WINDOW) == Burst(t, n)
  {
    if n > 0 {
      BurstSnoc(t, n - 1);
      PruneBurst(t, n - 1);
    }
  }

  lemma BurstStep(p: Log, t: real, k: nat, limit: int)
    requires p.kept == p.admitted == Burst(t, k)
    ensures var q := Extend(p, t, limit);
            q.kept == q.admitted == Burst(t, if k < limit then k + 1 else k) && (q.answer <==> k < limit)
  {
    PruneBurst(t, k);
    BurstSnoc(t, k);
  }

  lemma {:induction false} MemoryBurst(t: real, n: nat, limit: nat)
    ensures var k := if n <= limit then n else limit;
            MemoryLog(Burst(t, n), limit).kept == MemoryLog(Burst(t, n), limit).admitted == Burst(t, k)
    ensures n > 0 ==> (MemoryLog(Burst(t, n), limit).answer <==> n <= limit)
  {
    if n > 0 {
      BurstSnoc(t, n - 1);
      MemoryBurst(t, n - 1, limit);
      BurstStep(MemoryLog(Burst(t, n - 1), limit), t, if n - 1 <= limit then n - 1 else limit, limit);
    }
  }

  lemma BurstScores(t: real, n: nat, limit: int)
    requires 0.0 <= t && n > 0 && limit >= 1
    ensures RedisRun(Burst(t, n), limit).answer
  {
    var times := Burst(t, n);
    ScoresAreRecentRequests(times, limit);
    assert times[0] == t;
    assert Recent(times, t - WINDOW) == {t};
    assert RedisRun(times, limit) == RedisExtend(RedisRun(times[..n - 1], limit), t, limit);
  }

  lemma {:induction false} RedisBurst(t: real, n: nat, limit: int)
    requires 0.0 <= t && limit >= 1
    ensures RedisRun(Burst(t, n), limit).admitted == Burst(t, n)
  {
    if n > 0 {
      RedisBurst(t, n - 1, limit);
      BurstSnoc(t, n - 1);
      BurstScores(t, n, limit);
      RedisExtends(Burst(t, n), limit);
    }
  }

  /** Requests at one instant are one member of the sorted set: of n of them Redis admits all, under any limit
    of one or more, and the in-memory limiter as many as the limit allows. */
  lemma EqualTimesSlipThroughRedis(t: real, n: nat, limit: int)
    requires 0.0 <= t && limit >= 1
    ensures RedisRun(Burst(t, n), limit).admitted == Burst(t, n)
    ensures MemoryLog(Burst(t, n), limit).admitted == Burst(t, if n <= limit then n else limit)
  {
    RedisBurst(t, n, limit);
    MemoryBurst(t, n, limit);
  }

  lemma NoLimitNoAdmission(times: seq<real>, limit: int)
    requires Clock(times) && times != [] && limit <= 0
    ensures !RedisRun(times, limit).answer
  {
    var init, now := times[..|times| - 1], times[|times| - 1];
    assert RedisRun(times, limit) == RedisExtend(RedisRun(init, limit), now, limit);
    assert now in RedisRun(times, limit).zset.scores;
  }

  // Every request Redis admits is one the in-memory limiter admits.
  predicate NoFreer(times: seq<real>, limit: int) {
    Clock(times) && times != [] && RedisRun(times, limit).answer ==> MemoryLog(times, limit).answer
  }

  /** Redis is freer than the in-memory limiter on no stream of a clock exactly if the limit admits nothing. */
  lemma SubsetOnAllStreamsIff(limit: int)
    ensures (forall times :: NoFreer(times, limit)) <==> limit <= 0
  {
    if limit >= 1 {
      BurstScores(0.0, limit + 1, limit);
      MemoryBurst(0.0, limit + 1, limit);
      assert !NoFreer(Burst(0.0, limit + 1), limit);
    } else {
      forall times ensures NoFreer(times, limit) {
        if Clock(times) && times != [] {
          NoLimitNoAdmission(times, limit);
        }
      }
    }
  }
}
