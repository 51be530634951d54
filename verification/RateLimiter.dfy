// services/rate_limiter.py, layer 1: calls per user and provider in two sliding windows.
module RateLimiter {
  import opened Prelude
  import opened Windows

  const MINUTE := 60.0
  const HOUR := 3600.0

  datatype Limits = Limits(perMinute: nat, perHour: nat)

  function ProviderLimits(provider: string): (l: Limits)
    ensures 1 <= l.perMinute <= l.perHour <= 60 * l.perMinute
  {
    match provider
    case "github" => Limits(30, 500)
    case "google" => Limits(10, 100)
    case "notion" => Limits(20, 300)
    case "slack" => Limits(20, 200)
    case "n8n" => Limits(10, 100)
    case _ => Limits(20, 200)
  }

  datatype Result = Result(allowed: bool, currentMinute: nat, currentHour: nat,
                           limits: Limits, retryAfter: Option<int>)

  // int(x): truncation toward zero.
  function Trunc(x: real): int {
    if x >= 0.0 then x.Floor else -((-x).Floor)
  }

  function Max(a: int, b: int): int { if a >= b then a else b }

  // ---------------------------------------------------------------------------
  // What a full log of accepted calls says
  // ---------------------------------------------------------------------------

  // Calls that count in the window of this width that ends at time `at`.
  function CountAt(log: seq<real>, at: real, width: real): nat {
    After(log, at - width)
  }

  // Seconds reported when the window of this width is full.
  function RetryAfter(log: seq<real>, now: real, width: real): int {
    var live := Prune(log, now - width);
    if live == [] then Trunc(width) else Trunc(width - (now - live[0])) + 1
  }

  function Decide(log: seq<real>, now: real, l: Limits): Result {
    var m, h := CountAt(log, now, MINUTE), CountAt(log, now, HOUR);
    if m >= l.perMinute then Result(false, m, 0, l, Some(Max(RetryAfter(log, now, MINUTE), 1)))
    else if h >= l.perHour then Result(false, m, h, l, Some(Max(RetryAfter(log, now, HOUR), 1)))
    else Result(true, m + 1, h + 1, l, None)
  }

  // A call is accepted exactly when fewer calls than the limit are later than 60 seconds ago,
  // and fewer than the hourly limit later than 3600. The result counts them, and the call
  // itself where it is accepted; a denial by the minute does not count the hour.
  lemma DecideMeans(log: seq<real>, now: real, l: Limits)
    ensures var m, h := |LaterAt(log, now - 60.0)|, |LaterAt(log, now - 3600.0)|;
            var r := Decide(log, now, l);
            && (r.allowed <==> m < l.perMinute && h < l.perHour)
            && (r.retryAfter.None? <==> r.allowed)
            && r.limits == l
            && r.currentMinute == (if r.allowed then m + 1 else m)
            && r.currentHour == (if r.allowed then h + 1 else if m >= l.perMinute then 0 else h)
  {
    AfterCounts(log, now - MINUTE);
    AfterCounts(log, now - HOUR);
  }

  // ---------------------------------------------------------------------------
  // The store
  // ---------------------------------------------------------------------------

  datatype Width = Minute | Hour

  function Seconds(w: Width): real { if w.Minute? then MINUTE else HOUR }

  function LimitOf(l: Limits, w: Width): nat {
    if w.Minute? then l.perMinute else l.perHour
  }

  // Life of a key after its last ZADD: the window plus a margin.
  function KeyLife(w: Width): real { if w.Minute? then MINUTE + 10.0 else HOUR + 60.0 }

  datatype Pair = Pair(user: string, provider: string)

  datatype Key = Key(pair: Pair, width: Width)

  datatype ZSet = ZSet(scores: seq<real>, expiresAt: real)

  function LogOf(log: map<Pair, seq<real>>, p: Pair): seq<real> {
    if p in log then log[p] else []
  }

  function Lookup(keys: map<Key, ZSet>, k: Key): ZSet {
    if k in keys then keys[k] else ZSet([], 0.0)
  }

  // The scores a command sees at time now.
  function Live(z: ZSet, now: real): seq<real> {
    if now < z.expiresAt then z.scores else []
  }

  // The key shows every logged call that can still count at or after the clock.
  predicate SamePruned(a: seq<real>, b: seq<real>, t: real) {
    Prune(a, t) == Prune(b, t)
  }

  ghost predicate Tracks(z: ZSet, log: seq<real>, clock: real, w: Width) {
    && (forall t :: t >= clock - Seconds(w) ==> SamePruned(z.scores, log, t))
    && (z.scores != [] ==> AllUpTo(log, z.expiresAt - KeyLife(w)))
    && AllUpTo(z.scores, clock) && AllUpTo(log, clock)
  }

  lemma LiveAgrees(z: ZSet, log: seq<real>, clock: real, w: Width, now: real)
    requires Tracks(z, log, clock, w) && clock <= now
    ensures Tracks(ZSet(Live(z, now), z.expiresAt), log, now, w)
    ensures Prune(Live(z, now), now - Seconds(w)) == Prune(log, now - Seconds(w))
  {
    if now >= z.expiresAt && z.scores != [] {
      forall t | t >= now - Seconds(w) ensures SamePruned([], log, t) { PruneAll(log, t); }
    }
    assert SamePruned(Live(z, now), log, now - Seconds(w));
  }

  // Lazy pruning by any command that runs at the current time.
  lemma PruneKeepsTracking(z: ZSet, log: seq<real>, now: real, w: Width)
    requires Tracks(z, log, now, w)
    ensures Tracks(ZSet(Prune(z.scores, now - Seconds(w)), z.expiresAt), log, now, w)
  {
    var t0 := now - Seconds(w);
    var p := Prune(z.scores, t0);
    forall t | t >= t0 ensures SamePruned(p, log, t) {
      assert SamePruned(z.scores, log, t);
      PruneTwice(z.scores, t0, t);
    }
    forall i | 0 <= i < |p| ensures p[i] <= now {
      PruneMember(z.scores, t0, p[i]);
    }
  }

  lemma AddKeepsTracking(z: ZSet, log: seq<real>, w: Width, now: real)
    requires Tracks(z, log, now, w)
    ensures Tracks(ZSet(Zadd(z.scores, now), now + KeyLife(w)), log + [now], now, w)
  {
    ZaddLatest(z.scores, now);
    forall t | t >= now - Seconds(w) ensures SamePruned(z.scores + [now], log + [now], t) {
      assert SamePruned(z.scores, log, t);
      PruneSnoc(z.scores, now, t);
      PruneSnoc(log, now, t);
    }
  }

  lemma Later(z: ZSet, log: seq<real>, clock: real, w: Width, now: real)
    requires Tracks(z, log, clock, w) && clock <= now
    ensures Tracks(z, log, now, w)
  {
  }

  ghost predicate KeyTracks(keys: map<Key, ZSet>, log: map<Pair, seq<real>>, clock: real, p: Pair, w: Width) {
    Tracks(Lookup(keys, Key(p, w)), LogOf(log, p), clock, w)
  }

  ghost predicate AllTrack(keys: map<Key, ZSet>, log: map<Pair, seq<real>>, clock: real) {
    forall p, w :: KeyTracks(keys, log, clock, p, w)
  }

  // The key after ZREMRANGEBYSCORE at time now.
  function Pruned(keys: map<Key, ZSet>, k: Key, now: real): ZSet {
    var z := Lookup(keys, k);
    ZSet(Prune(Live(z, now), now - Seconds(k.width)), z.expiresAt)
  }

  // The key after ZADD and EXPIRE at time now.
  function Added(keys: map<Key, ZSet>, k: Key, now: real): ZSet {
    ZSet(Zadd(Live(Lookup(keys, k), now), now), now + KeyLife(k.width))
  }

  lemma PruneStepAt(keys: map<Key, ZSet>, k: Key, now: real, p: Pair, w: Width, log: seq<real>, clock: real)
    requires Tracks(Lookup(keys, Key(p, w)), log, clock, w) && clock <= now
    ensures Tracks(Lookup(keys[k := Pruned(keys, k, now)], Key(p, w)), log, now, w)
  {
    var z := Lookup(keys, Key(p, w));
    if Key(p, w) == k {
      LiveAgrees(z, log, clock, w, now);
      PruneKeepsTracking(ZSet(Live(z, now), z.expiresAt), log, now, w);
    } else {
      Later(z, log, clock, w, now);
    }
  }

  lemma PruneStep(keys: map<Key, ZSet>, log: map<Pair, seq<real>>, clock: real, k: Key, now: real)
    requires AllTrack(keys, log, clock) && clock <= now
    ensures AllTrack(keys[k := Pruned(keys, k, now)], log, now)
  {
    var keys' := keys[k := Pruned(keys, k, now)];
    forall p, w ensures KeyTracks(keys', log, now, p, w) {
      assert KeyTracks(keys, log, clock, p, w);
      PruneStepAt(keys, k, now, p, w, LogOf(log, p), clock);
    }
  }

  lemma PruneCounts(keys: map<Key, ZSet>, log: map<Pair, seq<real>>, clock: real, k: Key, now: real)
    requires AllTrack(keys, log, clock) && clock <= now
    ensures Pruned(keys, k, now).scores == Prune(LogOf(log, k.pair), now - Seconds(k.width))
  {
    assert KeyTracks(keys, log, clock, k.pair, k.width) && k == Key(k.pair, k.width);
    LiveAgrees(Lookup(keys, k), LogOf(log, k.pair), clock, k.width, now);
  }

  // The recording pipeline: ZADD and EXPIRE on both keys.
  function Recorded(keys: map<Key, ZSet>, p: Pair, now: real): map<Key, ZSet> {
    keys[Key(p, Minute) := Added(keys, Key(p, Minute), now)]
        [Key(p, Hour) := Added(keys, Key(p, Hour), now)]
  }

  lemma AddStepAt(keys: map<Key, ZSet>, now: real, p: Pair, q: Pair, w: Width, log: seq<real>)
    requires Tracks(Lookup(keys, Key(q, w)), log, now, w)
    ensures Tracks(Lookup(Recorded(keys, p, now), Key(q, w)), if q == p then log + [now] else log, now, w)
  {
    var z := Lookup(keys, Key(q, w));
    if q == p {
      LiveAgrees(z, log, now, w, now);
      AddKeepsTracking(ZSet(Live(z, now), z.expiresAt), log, w, now);
      assert Lookup(Recorded(keys, p, now), Key(q, w)) == Added(keys, Key(p, w), now);
    } else {
      assert Lookup(Recorded(keys, p, now), Key(q, w)) == z;
    }
  }

  lemma AddStep(keys: map<Key, ZSet>, log: map<Pair, seq<real>>, now: real, p: Pair)
    requires AllTrack(keys, log, now)
    ensures AllTrack(Recorded(keys, p, now), log[p := LogOf(log, p) + [now]], now)
  {
    var log' := log[p := LogOf(log, p) + [now]];
    forall q, w ensures KeyTracks(Recorded(keys, p, now), log', now, q, w) {
      assert KeyTracks(keys, log, now, q, w);
      AddStepAt(keys, now, p, q, w, LogOf(log, q));
    }
  }

  class Limiter {
    var keys: map<Key, ZSet>
    ghost var log: map<Pair, seq<real>>  // accepted calls since the last reset
    ghost var clock: real                // time of the last operation

    ghost predicate Valid()
      reads this
    {
      AllTrack(keys, log, clock)
    }

    constructor ()
      ensures Valid() && log == map[] && clock == 0.0
    {
      keys := map[];
      log := map[];
      clock := 0.0;
    }

    // One pipeline: ZREMRANGEBYSCORE then ZCARD.
    method PruneAndCount(k: Key, now: real) returns (count: nat)
      requires Valid() && clock <= now
      modifies this`keys, this`clock
      ensures Valid() && clock == now
      ensures count == CountAt(LogOf(log, k.pair), now, Seconds(k.width))
      ensures Lookup(keys, k).scores == Prune(LogOf(log, k.pair), now - Seconds(k.width))
    {
      PruneStep(keys, log, clock, k, now);
      PruneCounts(keys, log, clock, k, now);
      keys := keys[k := Pruned(keys, k, now)];
      clock := now;
      count := |keys[k].scores|;
    }

    // ZRANGE key 0 0, and the seconds until that entry leaves the window.
    method SecondsUntilFree(k: Key, now: real) returns (r: int)
      requires Lookup(keys, k).scores == Prune(LogOf(log, k.pair), now - Seconds(k.width))
      ensures r == RetryAfter(LogOf(log, k.pair), now, Seconds(k.width))
    {
      var scores := Lookup(keys, k).scores;
      r := if scores != [] then Trunc(Seconds(k.width) - (now - scores[0])) + 1 else Trunc(Seconds(k.width));
    }

    // The recording pipeline.
    method Record(p: Pair, now: real)
      requires Valid() && clock == now
      modifies this`keys, this`log
      ensures Valid() && log == old(log)[p := LogOf(old(log), p) + [now]]
    {
      AddStep(keys, log, now, p);
      keys := Recorded(keys, p, now);
      log := log[p := LogOf(log, p) + [now]];
    }

    // Decisions read the store only, and equal those of the full log.
    method CheckAndIncrement(user: string, provider: string, now: real) returns (r: Result)
      requires Valid() && clock <= now
      modifies this
      ensures Valid() && clock == now
      ensures r == Decide(LogOf(old(log), Pair(user, provider)), now, ProviderLimits(provider))
      ensures log == if r.allowed
                     then old(log)[Pair(user, provider) := LogOf(old(log), Pair(user, provider)) + [now]]
                     else old(log)
    {
      var limits := ProviderLimits(provider);
      r := CheckPair(Pair(user, provider), limits, now);
    }

    method CheckPair(p: Pair, limits: Limits, now: real) returns (r: Result)
      requires Valid() && clock <= now
      modifies this
      ensures Valid() && clock == now
      ensures r == Decide(LogOf(old(log), p), now, limits)
      ensures log == if r.allowed then old(log)[p := LogOf(old(log), p) + [now]] else old(log)
    {
      var minuteCount := PruneAndCount(Key(p, Minute), now);
      if minuteCount >= limits.perMinute {
        var retry := SecondsUntilFree(Key(p, Minute), now);
        return Result(false, minuteCount, 0, limits, Some(Max(retry, 1)));
      }
      var hourCount := PruneAndCount(Key(p, Hour), now);
      if hourCount >= limits.perHour {
        var retry := SecondsUntilFree(Key(p, Hour), now);
        return Result(false, minuteCount, hourCount, limits, Some(Max(retry, 1)));
      }
      Record(p, now);
      r := Result(true, minuteCount + 1, hourCount + 1, limits, None);
    }

    // A usage read prunes the store but leaves the log, and so every decision, alone.
    method GetUsage(user: string, provider: string, now: real) returns (minute: nat, hour: nat)
      requires Valid() && clock <= now
      modifies this`keys, this`clock
      ensures Valid() && clock == now
      ensures minute == CountAt(LogOf(log, Pair(user, provider)), now, MINUTE)
      ensures hour == CountAt(LogOf(log, Pair(user, provider)), now, HOUR)
    {
      minute := PruneAndCount(Key(Pair(user, provider), Minute), now);
      hour := PruneAndCount(Key(Pair(user, provider), Hour), now);
    }

    method Reset(user: string, provider: string)
      requires Valid()
      modifies this`keys, this`log
      ensures Valid()
      ensures log == old(log)[Pair(user, provider) := []]
    {
      var p := Pair(user, provider);
      keys := keys - {Key(p, Minute), Key(p, Hour)};
      log := log[p := []];
      forall q, w ensures KeyTracks(keys, log, clock, q, w) {
        assert KeyTracks(old(keys), old(log), clock, q, w);
      }
    }
  }

  // ---------------------------------------------------------------------------
  // Serial runs for one user and provider
  // ---------------------------------------------------------------------------

  datatype Op = Check(at: real) | Usage(at: real) | Clear(at: real)

  // What one operation makes of the log, and the decision it takes, if any: the
  // contracts of CheckAndIncrement, GetUsage and Reset.
  function LogAfter(log: seq<real>, op: Op, l: Limits): seq<real> {
    match op
    case Check(t) => if Decide(log, t, l).allowed then log + [t] else log
    case Usage(_) => log
    case Clear(_) => []
  }

  function Taken(log: seq<real>, op: Op, l: Limits): seq<Result> {
    if op.Check? then [Decide(log, op.at, l)] else []
  }

  function RunLog(ops: seq<Op>, l: Limits): seq<real> {
    if ops == [] then [] else LogAfter(RunLog(ops[..|ops| - 1], l), ops[|ops| - 1], l)
  }

  // The decisions taken, in order.
  function Decisions(ops: seq<Op>, l: Limits): seq<Result> {
    if ops == [] then []
    else Decisions(ops[..|ops| - 1], l) + Taken(RunLog(ops[..|ops| - 1], l), ops[|ops| - 1], l)
  }

  function WithoutUsage(ops: seq<Op>): seq<Op> {
    if ops == [] then []
    else if ops[|ops| - 1].Usage? then WithoutUsage(ops[..|ops| - 1])
    else WithoutUsage(ops[..|ops| - 1]) + [ops[|ops| - 1]]
  }

  // Times never go back.
  predicate InOrder(ops: seq<Op>) {
    forall i, j :: 0 <= i < j < |ops| ==> ops[i].at <= ops[j].at
  }

  lemma RunStep(ops: seq<Op>, op: Op, l: Limits)
    ensures RunLog(ops + [op], l) == LogAfter(RunLog(ops, l), op, l)
    ensures Decisions(ops + [op], l) == Decisions(ops, l) + Taken(RunLog(ops, l), op, l)
  {
    assert (ops + [op])[..|ops|] == ops;
  }

  // Usage reads interleaved anywhere change no decision.
  lemma {:induction false} UsageChangesNothing(ops: seq<Op>, l: Limits)
    ensures RunLog(WithoutUsage(ops), l) == RunLog(ops, l)
    ensures Decisions(WithoutUsage(ops), l) == Decisions(ops, l)
  {
    if ops != [] {
      var front, last := ops[..|ops| - 1], ops[|ops| - 1];
      UsageChangesNothing(front, l);
      if last.Usage? {
        assert Decisions(ops, l) == Decisions(front, l);
      } else {
        RunStep(WithoutUsage(front), last, l);
      }
    }
  }

  // ---------------------------------------------------------------------------
  // The same runs on the store, many users and providers interleaved
  // ---------------------------------------------------------------------------

  datatype Request = Request(user: string, provider: string, op: Op)

  predicate IsFor(r: Request, p: Pair) { p == Pair(r.user, r.provider) }

  // The operations on one pair, in order.
  function OpsOf(rs: seq<Request>, p: Pair): seq<Op> {
    if rs == [] then []
    else if IsFor(rs[|rs| - 1], p) then OpsOf(rs[..|rs| - 1], p) + [rs[|rs| - 1].op]
    else OpsOf(rs[..|rs| - 1], p)
  }

  function LimitsOf(p: Pair): Limits { ProviderLimits(p.provider) }

  predicate RequestsInOrder(rs: seq<Request>) {
    && (forall i :: 0 <= i < |rs| ==> rs[i].op.at >= 0.0)
    && (forall i, j :: 0 <= i < j < |rs| ==> rs[i].op.at <= rs[j].op.at)
  }

  // Each pair's log and decisions are those of its own operations, whatever the others do.
  predicate PairRuns(rs: seq<Request>, log: map<Pair, seq<real>>, taken: map<Pair, seq<Result>>, p: Pair) {
    && LogOf(log, p) == RunLog(OpsOf(rs, p), LimitsOf(p))
    && TakenOf(taken, p) == Decisions(OpsOf(rs, p), LimitsOf(p))
  }

  function TakenOf(taken: map<Pair, seq<Result>>, p: Pair): seq<Result> {
    if p in taken then taken[p] else []
  }

  ghost predicate AllRun(rs: seq<Request>, log: map<Pair, seq<real>>, taken: map<Pair, seq<Result>>) {
    forall p :: PairRuns(rs, log, taken, p)
  }

  // One more request: what it makes of the pair's log, and the decision it took.
  lemma RequestStep(rs: seq<Request>, r: Request, p: Pair, log: map<Pair, seq<real>>, taken: map<Pair, seq<Result>>,
                    log': map<Pair, seq<real>>, taken': map<Pair, seq<Result>>)
    requires AllRun(rs, log, taken) && IsFor(r, p)
    requires LogOf(log', p) == LogAfter(LogOf(log, p), r.op, LimitsOf(p))
    requires TakenOf(taken', p) == TakenOf(taken, p) + Taken(LogOf(log, p), r.op, LimitsOf(p))
    requires forall q :: q != p ==> LogOf(log', q) == LogOf(log, q) && TakenOf(taken', q) == TakenOf(taken, q)
    ensures AllRun(rs + [r], log', taken')
  {
    assert (rs + [r])[..|rs|] == rs;
    forall q ensures PairRuns(rs + [r], log', taken', q) {
      assert PairRuns(rs, log, taken, q);
      if q == p { RunStep(OpsOf(rs, p), r.op, LimitsOf(p)); }
    }
  }

  // One request, carried out on the store.
  method Serve(lim: Limiter, r: Request) returns (result: Option<Result>)
    requires lim.Valid() && lim.clock <= r.op.at
    modifies lim
    ensures lim.Valid() && lim.clock <= r.op.at
    ensures var p := Pair(r.user, r.provider);
            var log := LogOf(old(lim.log), p);
            && LogOf(lim.log, p) == LogAfter(log, r.op, LimitsOf(p))
            && (forall q :: q != p ==> LogOf(lim.log, q) == LogOf(old(lim.log), q))
            && result == if r.op.Check? then Some(Decide(log, r.op.at, LimitsOf(p))) else None
  {
    result := None;
    match r.op {
      case Check(now) =>
        var decision := lim.CheckAndIncrement(r.user, r.provider, now);
        result := Some(decision);
      case Usage(now) =>
        var _, _ := lim.GetUsage(r.user, r.provider, now);
      case Clear(_) =>
        lim.Reset(r.user, r.provider);
    }
  }

  // A whole run on the store, which prunes, expires and forgets: each pair gets the decisions
  // of the full log of its own accepted calls. With UsageChangesNothing, they are also those
  // of the run without the usage reads.
  method RunRequests(rs: seq<Request>) returns (lim: Limiter, taken: map<Pair, seq<Result>>)
    requires RequestsInOrder(rs)
    ensures fresh(lim) && lim.Valid()
    ensures AllRun(rs, lim.log, taken)
  {
    lim := new Limiter();
    taken := map[];
    for i := 0 to |rs|
      invariant fresh(lim) && lim.Valid() && AllRun(rs[..i], lim.log, taken)
      invariant i < |rs| ==> lim.clock <= rs[i].op.at
    {
      var r := rs[i];
      var p := Pair(r.user, r.provider);
      ghost var log, before := lim.log, taken;
      var result := Serve(lim, r);
      if result.Some? { taken := taken[p := TakenOf(taken, p) + [result.value]]; }
      RequestStep(rs[..i], r, p, log, before, lim.log, taken);
      assert rs[..i + 1] == rs[..i] + [r];
    }
    assert rs[..|rs|] == rs;
  }

  // ---------------------------------------------------------------------------
  // Windows
  // ---------------------------------------------------------------------------

  function InLast(log: seq<real>, t: real, width: real): nat {
    Within(log, t - width, t)
  }

  // No window of this width holds more than the limit, wherever it ends.
  ghost predicate Bounded(log: seq<real>, width: real, limit: nat) {
    forall t :: InLast(log, t, width) <= limit
  }

  lemma BoundedSnoc(log: seq<real>, x: real, width: real, limit: nat)
    requires Bounded(log, width, limit) && AllUpTo(log, x) && width > 0.0
    requires CountAt(log, x, width) < limit
    ensures Bounded(log + [x], width, limit)
  {
    assert (log + [x])[..|log|] == log;
    forall t ensures InLast(log + [x], t, width) <= limit {
      assert InLast(log, t, width) <= limit;
      if t - width < x <= t {
        WithinIsAfter(log, t - width, t);
        AfterMonotone(log, x - width, t - width);
      }
    }
  }

  // No 60 s and no 3600 s window ever holds more calls accepted since the last reset than
  // its limit.
  lemma {:induction false} WindowsBounded(ops: seq<Op>, l: Limits)
    requires InOrder(ops)
    ensures Bounded(RunLog(ops, l), MINUTE, l.perMinute)
    ensures Bounded(RunLog(ops, l), HOUR, l.perHour)
    ensures Ascending(RunLog(ops, l))
    ensures ops != [] ==> AllUpTo(RunLog(ops, l), ops[|ops| - 1].at)
  {
    if ops != [] {
      var front, last := ops[..|ops| - 1], ops[|ops| - 1];
      WindowsBounded(front, l);
      var log := RunLog(front, l);
      if front != [] { assert front[|front| - 1].at <= last.at; }
      assert AllUpTo(log, last.at);
      if last.Check? && Decide(log, last.at, l).allowed {
        BoundedSnoc(log, last.at, MINUTE, l.perMinute);
        BoundedSnoc(log, last.at, HOUR, l.perHour);
      }
    }
  }

  // All calls ever accepted, and the times of the resets.
  function Accepted(ops: seq<Op>, l: Limits): seq<real> {
    if ops == [] then []
    else
      var front, last := ops[..|ops| - 1], ops[|ops| - 1];
      if last.Check? && Decide(RunLog(front, l), last.at, l).allowed then Accepted(front, l) + [last.at]
      else Accepted(front, l)
  }

  function Resets(ops: seq<Op>): seq<real> {
    if ops == [] then []
    else if ops[|ops| - 1].Clear? then Resets(ops[..|ops| - 1]) + [ops[|ops| - 1].at]
    else Resets(ops[..|ops| - 1])
  }

  // What was accepted before the last reset.
  function Forgotten(ops: seq<Op>, l: Limits): seq<real> {
    if ops == [] then []
    else if ops[|ops| - 1].Clear? then Accepted(ops[..|ops| - 1], l)
    else Forgotten(ops[..|ops| - 1], l)
  }

  lemma WithinSnoc(s: seq<real>, x: real, from: real, upTo: real)
    ensures Within(s + [x], from, upTo) == Within(s, from, upTo) + if from < x <= upTo then 1 else 0
  {
    assert (s + [x])[..|s|] == s;
  }

  lemma {:induction false} WithinNone(s: seq<real>, from: real, upTo: real)
    requires AllUpTo(s, from)
    ensures Within(s, from, upTo) == 0
  {
    if s != [] { WithinNone(s[..|s| - 1], from, upTo); }
  }

  lemma {:induction false} AcceptedUpTo(ops: seq<Op>, l: Limits, t: real)
    requires InOrder(ops) && (ops != [] ==> ops[|ops| - 1].at <= t)
    ensures AllUpTo(Accepted(ops, l), t)
  {
    if ops != [] { AcceptedUpTo(ops[..|ops| - 1], l, t); }
  }

  lemma {:induction false} AcceptedSplits(ops: seq<Op>, l: Limits, from: real, upTo: real)
    ensures Within(Accepted(ops, l), from, upTo) ==
              Within(Forgotten(ops, l), from, upTo) + Within(RunLog(ops, l), from, upTo)
  {
    if ops != [] {
      var front, last := ops[..|ops| - 1], ops[|ops| - 1];
      AcceptedSplits(front, l, from, upTo);
      if last.Check? {
        WithinSnoc(Accepted(front, l), last.at, from, upTo);
        WithinSnoc(RunLog(front, l), last.at, from, upTo);
      }
    }
  }

  lemma LogBounded(ops: seq<Op>, l: Limits, w: Width, t: real)
    requires InOrder(ops)
    ensures InLast(RunLog(ops, l), t, Seconds(w)) <= LimitOf(l, w)
  {
    WindowsBounded(ops, l);
  }

  lemma Distribute(limit: nat, n: nat)
    ensures limit * (n + 1) == limit * n + limit
  {
  }

  // Everything accepted so far, where what was forgotten is covered by the resets.
  lemma AcceptedCovered(ops: seq<Op>, l: Limits, w: Width, t: real)
    requires InOrder(ops)
    requires InLast(Forgotten(ops, l), t, Seconds(w)) <= LimitOf(l, w) * InLast(Resets(ops), t, Seconds(w))
    ensures InLast(Accepted(ops, l), t, Seconds(w)) <= LimitOf(l, w) * (InLast(Resets(ops), t, Seconds(w)) + 1)
  {
    AcceptedSplits(ops, l, t - Seconds(w), t);
    LogBounded(ops, l, w, t);
    Distribute(LimitOf(l, w), InLast(Resets(ops), t, Seconds(w)));
  }

  lemma ResetCovers(front: seq<Op>, at: real, l: Limits, w: Width, t: real)
    requires InOrder(front) && (front != [] ==> front[|front| - 1].at <= at) && at <= t
    requires InLast(Forgotten(front, l), t, Seconds(w)) <= LimitOf(l, w) * InLast(Resets(front), t, Seconds(w))
    ensures InLast(Accepted(front, l), t, Seconds(w)) <= LimitOf(l, w) * InLast(Resets(front) + [at], t, Seconds(w))
  {
    var n := InLast(Resets(front), t, Seconds(w));
    WithinSnoc(Resets(front), at, t - Seconds(w), t);
    if at > t - Seconds(w) {
      AcceptedCovered(front, l, w, t);
      assert InLast(Resets(front) + [at], t, Seconds(w)) == n + 1;
    } else {
      NothingInWindow(front, at, l, w, t);
    }
  }

  lemma NothingInWindow(front: seq<Op>, at: real, l: Limits, w: Width, t: real)
    requires InOrder(front) && (front != [] ==> front[|front| - 1].at <= at) && at <= t - Seconds(w)
    ensures InLast(Accepted(front, l), t, Seconds(w)) == 0
  {
    AcceptedUpTo(front, l, at);
    WithinNone(Accepted(front, l), t - Seconds(w), t);
  }

  // In a window that ends no earlier than the run, what was forgotten is covered by the
  // resets that fall into it.
  lemma {:induction false} ForgottenBounded(ops: seq<Op>, l: Limits, w: Width, t: real)
    requires InOrder(ops) && (ops != [] ==> ops[|ops| - 1].at <= t)
    ensures InLast(Forgotten(ops, l), t, Seconds(w)) <= LimitOf(l, w) * InLast(Resets(ops), t, Seconds(w))
  {
    if ops != [] {
      var front, last := ops[..|ops| - 1], ops[|ops| - 1];
      ForgottenBounded(front, l, w, t);
      if last.Clear? { ResetCovers(front, last.at, l, w, t); }
    }
  }

  // Every window, wherever it ends: at most the limit for each reset in it, and once more.
  lemma {:induction false} AcceptedBounded(ops: seq<Op>, l: Limits, w: Width, t: real)
    requires InOrder(ops)
    ensures InLast(Accepted(ops, l), t, Seconds(w)) <= LimitOf(l, w) * (InLast(Resets(ops), t, Seconds(w)) + 1)
  {
    if ops != [] && ops[|ops| - 1].at > t {
      AcceptedBounded(ops[..|ops| - 1], l, w, t);
      LaterIgnored(ops, l, w, t);
    } else {
      ForgottenBounded(ops, l, w, t);
      AcceptedCovered(ops, l, w, t);
    }
  }

  // What happens after the end of a window does not count in it.
  lemma LaterIgnored(ops: seq<Op>, l: Limits, w: Width, t: real)
    requires ops != [] && ops[|ops| - 1].at > t
    ensures InLast(Accepted(ops, l), t, Seconds(w)) == InLast(Accepted(ops[..|ops| - 1], l), t, Seconds(w))
    ensures InLast(Resets(ops), t, Seconds(w)) == InLast(Resets(ops[..|ops| - 1]), t, Seconds(w))
  {
    var front, last := ops[..|ops| - 1], ops[|ops| - 1];
    WithinSnoc(Accepted(front, l), last.at, t - Seconds(w), t);
    WithinSnoc(Resets(front), last.at, t - Seconds(w), t);
  }

  lemma AcceptedSnoc(ops: seq<Op>, op: Op, l: Limits)
    ensures Accepted(ops + [op], l) ==
              Accepted(ops, l) + if op.Check? && Decide(RunLog(ops, l), op.at, l).allowed then [op.at] else []
  {
    assert (ops + [op])[..|ops|] == ops;
  }

  // A reset inside a window does let the limit be used twice.
  lemma ResetRefillsWindow()
    ensures InLast(Accepted([Check(0.0), Clear(1.0), Check(2.0)], Limits(1, 1)), 2.0, MINUTE) == 2
  {
    var a, b, c := Check(0.0), Clear(1.0), Check(2.0);
    var l := Limits(1, 1);
    AcceptedSnoc([], a, l);
    AcceptedSnoc([a], b, l);
    AcceptedSnoc([a, b], c, l);
    RunStep([a], b, l);
    assert [] + [a] == [a] && [a] + [b] == [a, b] && [a, b] + [c] == [a, b, c];
    assert [] + [0.0] == [0.0] && [0.0] + [2.0] == [0.0, 2.0];
    WithinSnoc([], 0.0, 2.0 - MINUTE, 2.0);
    WithinSnoc([0.0], 2.0, 2.0 - MINUTE, 2.0);
  }

  // ---------------------------------------------------------------------------
  // Exact retry times
  // ---------------------------------------------------------------------------

  // Seconds until the oldest entry leaves the window.
  function UntilFree(log: seq<real>, now: real, width: real): real
    requires Prune(log, now - width) != []
  {
    Prune(log, now - width)[0] - (now - width)
  }

  // With nothing recorded in between, the window passes a retry exactly from r
  // seconds after now.
  ghost predicate PassesFrom(log: seq<real>, now: real, width: real, limit: nat, r: real) {
    forall at :: at >= now ==> (CountAt(log, at, width) < limit <==> at - now >= r)
  }

  lemma {:induction false} FirstGoes(s: seq<real>, t: real)
    requires s != [] && s[0] <= t
    ensures After(s, t) < |s|
  {
    AfterMonotone(s[..|s| - 1], t, t);
    if |s| > 1 { FirstGoes(s[..|s| - 1], t); }
  }

  lemma OldestDecides(live: seq<real>, t: real)
    requires Ascending(live) && live != []
    ensures After(live, t) < |live| <==> live[0] <= t
  {
    if live[0] <= t { FirstGoes(live, t); } else { PruneNone(live, t); }
  }

  lemma OldestLeaves(log: seq<real>, a: real, b: real)
    requires Ascending(log) && Prune(log, a) != [] && a <= b
    ensures After(log, b) < After(log, a) <==> Prune(log, a)[0] <= b
  {
    var live := Prune(log, a);
    PruneAscending(log, a);
    PruneTwice(log, a, b);
    OldestDecides(live, b);
  }

  lemma RetryAt(log: seq<real>, now: real, width: real, at: real)
    requires Ascending(log) && Prune(log, now - width) != [] && at >= now
    ensures CountAt(log, at, width) < CountAt(log, now, width) <==> at - now >= UntilFree(log, now, width)
  {
    OldestLeaves(log, now - width, at - width);
  }

  // On a denial by a window, the oldest entry leaves it after r seconds and the
  // reported time is in (r, r + 1]; the empty-set fallback is never taken.
  lemma RetryTimeExact(log: seq<real>, now: real, width: real, limit: nat)
    requires Ascending(log) && AllUpTo(log, now) && Bounded(log, width, limit)
    requires limit >= 1 && width > 0.0 && CountAt(log, now, width) >= limit
    ensures Prune(log, now - width) != []
    ensures PassesFrom(log, now, width, limit, UntilFree(log, now, width))
    ensures 0.0 < UntilFree(log, now, width) <= width
    ensures UntilFree(log, now, width) < RetryAfter(log, now, width) as real <= UntilFree(log, now, width) + 1.0
    ensures RetryAfter(log, now, width) >= 1
  {
    var live := Prune(log, now - width);
    WithinIsAfter(log, now - width, now);
    assert InLast(log, now, width) <= limit;
    assert |live| == limit;
    PruneMember(log, now - width, live[0]);
    forall at | at >= now ensures CountAt(log, at, width) < limit <==> at - now >= UntilFree(log, now, width) {
      RetryAt(log, now, width, at);
    }
  }

  // The window that denies: the minute is asked first.
  function Denying(log: seq<real>, now: real, l: Limits): Width {
    if CountAt(log, now, MINUTE) >= l.perMinute then Minute else Hour
  }

  // The same for the decisions of a run.
  lemma {:induction false} DenialReportsExactRetry(ops: seq<Op>, now: real, l: Limits)
    requires InOrder(ops) && (ops != [] ==> ops[|ops| - 1].at <= now)
    requires 1 <= l.perMinute && 1 <= l.perHour
    requires !Decide(RunLog(ops, l), now, l).allowed
    ensures var log := RunLog(ops, l);
            var width := Seconds(Denying(log, now, l));
            && Prune(log, now - width) != []
            && PassesFrom(log, now, width, LimitOf(l, Denying(log, now, l)), UntilFree(log, now, width))
            && Decide(log, now, l).retryAfter.Some?
            && UntilFree(log, now, width) < Decide(log, now, l).retryAfter.value as real
                                         <= UntilFree(log, now, width) + 1.0
  {
    WindowsBounded(ops, l);
    var log := RunLog(ops, l);
    RetryTimeExact(log, now, Seconds(Denying(log, now, l)), LimitOf(l, Denying(log, now, l)));
  }
}
