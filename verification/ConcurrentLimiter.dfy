// The same limiter under several workers. Each call is three separate pipelines, so
// others may run between a worker's counts and its record.
module ConcurrentLimiter {
  import opened Windows
  import opened RateLimiter

  // Where a worker stands in check_and_increment; `now` is its clock reading.
  datatype Worker =
    | Idle
    | Started(now: real)
    | MinutePassed(now: real)  // counted the minute below its limit
    | HourPassed(now: real)    // counted both below their limits, about to record

  // One user and provider: both keys, the workers, and the calls recorded so far.
  datatype State = State(
    clock: real,
    minute: ZSet,
    hour: ZSet,
    workers: seq<Worker>,
    recorded: seq<real>
  )

  datatype Step =
    | Tick(to: real)
    | Start(w: nat)
    | CountMinute(w: nat)
    | CountHour(w: nat)
    | Record(w: nat)
    | ReadUsage(now: real)
    | ClearAll

  function ZPrune(z: ZSet, clock: real, bound: real): ZSet {
    ZSet(Prune(Live(z, clock), bound), z.expiresAt)
  }

  function ZRecord(z: ZSet, clock: real, score: real, w: Width): ZSet {
    ZSet(Zadd(Live(z, clock), score), clock + KeyLife(w))
  }

  ghost predicate Enabled(s: State, step: Step) {
    match step
    case Tick(to) => s.clock <= to
    case Start(w) => w < |s.workers| && s.workers[w].Idle?
    case CountMinute(w) => w < |s.workers| && s.workers[w].Started?
    case CountHour(w) => w < |s.workers| && s.workers[w].MinutePassed?
    case Record(w) => w < |s.workers| && s.workers[w].HourPassed?
    case ReadUsage(now) => now <= s.clock
    case ClearAll => true
  }

  function Next(s: State, step: Step, l: Limits): State
    requires Enabled(s, step)
  {
    match step
    case Tick(to) => s.(clock := to)
    case Start(w) => s.(workers := s.workers[w := Started(s.clock)])
    case CountMinute(w) =>
      var now := s.workers[w].now;
      var z := ZPrune(s.minute, s.clock, now - MINUTE);
      s.(minute := z,
         workers := s.workers[w := if |z.scores| >= l.perMinute then Idle else MinutePassed(now)])
    case CountHour(w) =>
      var now := s.workers[w].now;
      var z := ZPrune(s.hour, s.clock, now - HOUR);
      s.(hour := z,
         workers := s.workers[w := if |z.scores| >= l.perHour then Idle else HourPassed(now)])
    case Record(w) =>
      var now := s.workers[w].now;
      s.(minute := ZRecord(s.minute, s.clock, now, Minute),
         hour := ZRecord(s.hour, s.clock, now, Hour),
         workers := s.workers[w := Idle],
         recorded := s.recorded + [now])
    case ReadUsage(now) =>
      s.(minute := ZPrune(s.minute, s.clock, now - MINUTE), hour := ZPrune(s.hour, s.clock, now - HOUR))
    case ClearAll => s.(minute := ZSet([], 0.0), hour := ZSet([], 0.0), recorded := [])
  }

  function Initial(k: nat): State {
    State(0.0, ZSet([], 0.0), ZSet([], 0.0), seq(k, _ => Idle), [])
  }

  // The state after a run; a step that is not enabled is skipped.
  ghost function Exec(k: nat, steps: seq<Step>, l: Limits): State {
    if steps == [] then Initial(k)
    else
      var s := Exec(k, steps[..|steps| - 1], l);
      if Enabled(s, steps[|steps| - 1]) then Next(s, steps[|steps| - 1], l) else s
  }

  // ---------------------------------------------------------------------------
  // Counting what is in flight
  // ---------------------------------------------------------------------------

  // Workers that have counted this window and have not recorded or given up.
  predicate Past(w: Worker, width: Width) {
    w.HourPassed? || (w.MinutePassed? && width.Minute?)
  }

  function InFlight(ws: seq<Worker>, width: Width): nat {
    if ws == [] then 0
    else InFlight(ws[..|ws| - 1], width) + if Past(ws[|ws| - 1], width) then 1 else 0
  }

  lemma {:induction false} InFlightUpdate(ws: seq<Worker>, i: nat, x: Worker, width: Width)
    requires i < |ws|
    ensures InFlight(ws[i := x], width) ==
              InFlight(ws, width) - (if Past(ws[i], width) then 1 else 0) + if Past(x, width) then 1 else 0
  {
    var n := |ws| - 1;
    if i < n {
      InFlightUpdate(ws[..n], i, x, width);
      assert ws[i := x][..n] == ws[..n][i := x];
    } else {
      assert ws[i := x][..n] == ws[..n];
    }
  }

  lemma {:induction false} InFlightBounded(ws: seq<Worker>, i: nat, width: Width)
    requires i < |ws| && !Past(ws[i], width)
    ensures InFlight(ws, width) <= |ws| - 1
  {
    var n := |ws| - 1;
    if i < n { InFlightBounded(ws[..n], i, width); } else { InFlightAtMost(ws[..n], width); }
  }

  lemma {:induction false} InFlightAtMost(ws: seq<Worker>, width: Width)
    ensures InFlight(ws, width) <= |ws|
  {
    if ws != [] { InFlightAtMost(ws[..|ws| - 1], width); }
  }

  // ---------------------------------------------------------------------------
  // The invariant
  // ---------------------------------------------------------------------------

  // The key counts every recorded call that is later than t, for any t the workers can
  // still ask about the current window.
  predicate SameAfter(scores: seq<real>, recorded: seq<real>, t: real) {
    After(scores, t) == After(recorded, t)
  }

  ghost predicate Counts(scores: seq<real>, recorded: seq<real>, from: real) {
    forall t :: t >= from ==> SameAfter(scores, recorded, t)
  }

  ghost predicate KeyOk(z: ZSet, recorded: seq<real>, clock: real, w: Width) {
    && Counts(z.scores, recorded, clock - Seconds(w))
    && (z.scores != [] ==> AllUpTo(recorded, z.expiresAt - KeyLife(w)))
  }

  // Calls in the current window, plus those on their way to it.
  function Committed(s: State, w: Width): nat {
    CountAt(s.recorded, s.clock, Seconds(w)) + InFlight(s.workers, w)
  }

  ghost predicate ClocksOk(s: State) {
    && AllUpTo(s.recorded, s.clock)
    && forall i :: 0 <= i < |s.workers| && !s.workers[i].Idle? ==> s.workers[i].now <= s.clock
  }

  ghost predicate Invariant(s: State, k: nat, l: Limits) {
    && |s.workers| == k && ClocksOk(s)
    && KeyInv(s, Minute) && KeyInv(s, Hour)
    && Committed(s, Minute) <= l.perMinute + k - 1
    && Committed(s, Hour) <= l.perHour + k - 1
  }

  lemma {:induction false} ZaddCounts(s: seq<real>, x: real, t: real)
    ensures After(Zadd(s, x), t) == After(s, t) + if x > t then 1 else 0
  {
    if s == [] || s[|s| - 1] <= x {
      PruneSnoc(s, x, t);
    } else {
      ZaddCounts(s[..|s| - 1], x, t);
      PruneSnoc(Zadd(s[..|s| - 1], x), s[|s| - 1], t);
    }
  }

  lemma LiveCounts(z: ZSet, recorded: seq<real>, clock: real, w: Width)
    requires KeyOk(z, recorded, clock, w)
    ensures KeyOk(ZSet(Live(z, clock), z.expiresAt), recorded, clock, w)
  {
    if clock >= z.expiresAt && z.scores != [] {
      forall t | t >= clock - Seconds(w) ensures SameAfter([], recorded, t) { PruneAll(recorded, t); }
    }
  }

  // A worker that prunes with an earlier clock reading removes nothing still wanted,
  // and counts at least the current window.
  lemma PruneOk(z: ZSet, recorded: seq<real>, clock: real, now: real, w: Width)
    requires KeyOk(z, recorded, clock, w) && now <= clock
    ensures KeyOk(ZPrune(z, clock, now - Seconds(w)), recorded, clock, w)
    ensures |ZPrune(z, clock, now - Seconds(w)).scores| >= CountAt(recorded, clock, Seconds(w))
  {
    LiveCounts(z, recorded, clock, w);
    var live, b := Live(z, clock), now - Seconds(w);
    forall t | t >= clock - Seconds(w) ensures SameAfter(Prune(live, b), recorded, t) {
      assert SameAfter(live, recorded, t);
      PruneTwice(live, b, t);
    }
    assert SameAfter(live, recorded, clock - Seconds(w));
    AfterMonotone(live, b, clock - Seconds(w));
  }

  lemma RecordOk(z: ZSet, recorded: seq<real>, clock: real, now: real, w: Width)
    requires KeyOk(z, recorded, clock, w) && now <= clock && AllUpTo(recorded, clock)
    ensures KeyOk(ZRecord(z, clock, now, w), recorded + [now], clock, w)
  {
    LiveCounts(z, recorded, clock, w);
    forall t | t >= clock - Seconds(w)
      ensures SameAfter(Zadd(Live(z, clock), now), recorded + [now], t)
    {
      assert SameAfter(Live(z, clock), recorded, t);
      ZaddCounts(Live(z, clock), now, t);
      PruneSnoc(recorded, now, t);
    }
  }

  lemma TickOk(z: ZSet, recorded: seq<real>, clock: real, to: real, w: Width)
    requires KeyOk(z, recorded, clock, w) && clock <= to
    ensures KeyOk(z, recorded, to, w)
    ensures CountAt(recorded, to, Seconds(w)) <= CountAt(recorded, clock, Seconds(w))
  {
    AfterMonotone(recorded, clock - Seconds(w), to - Seconds(w));
  }

  function KeyOf(s: State, w: Width): ZSet { if w.Minute? then s.minute else s.hour }

  ghost predicate KeyInv(s: State, w: Width) {
    KeyOk(KeyOf(s, w), s.recorded, s.clock, w)
  }

  lemma PruneStepKey(s: State, s': State, now: real, v: Width, w: Width)
    requires KeyInv(s, w) && now <= s.clock && s'.recorded == s.recorded && s'.clock == s.clock
    requires KeyOf(s', w) == if v == w then ZPrune(KeyOf(s, w), s.clock, now - Seconds(w)) else KeyOf(s, w)
    ensures KeyInv(s', w)
  {
    if v == w { PruneOk(KeyOf(s, w), s.recorded, s.clock, now, w); }
  }

  lemma RecordStepKey(s: State, i: nat, w: Width, l: Limits)
    requires KeyInv(s, w) && ClocksOk(s) && Enabled(s, Record(i))
    ensures KeyInv(Next(s, Record(i), l), w)
  {
    RecordOk(KeyOf(s, w), s.recorded, s.clock, s.workers[i].now, w);
  }

  lemma StepKeepsKey(s: State, step: Step, l: Limits, w: Width)
    requires KeyInv(s, w) && ClocksOk(s) && Enabled(s, step)
    ensures KeyInv(Next(s, step, l), w)
  {
    var s' := Next(s, step, l);
    match step
    case Tick(to) => TickOk(KeyOf(s, w), s.recorded, s.clock, to, w);
    case Start(i) =>
    case CountMinute(i) => PruneStepKey(s, s', s.workers[i].now, Minute, w);
    case CountHour(i) => PruneStepKey(s, s', s.workers[i].now, Hour, w);
    case Record(i) => RecordStepKey(s, i, w, l);
    case ReadUsage(now) => PruneStepKey(s, s', now, w, w);
    case ClearAll =>
  }

  // Passing a count: what is committed grows by one, but was below the limit.
  lemma CountKeepsCommitted(s: State, i: nat, x: Worker, limit: nat, now: real, w: Width)
    requires KeyInv(s, w) && i < |s.workers| && now <= s.clock
    requires Committed(s, w) <= limit + |s.workers| - 1
    requires Past(x, w) ==> Past(s.workers[i], w) || |ZPrune(KeyOf(s, w), s.clock, now - Seconds(w)).scores| < limit
    ensures CountAt(s.recorded, s.clock, Seconds(w)) + InFlight(s.workers[i := x], w) <= limit + |s.workers| - 1
  {
    InFlightUpdate(s.workers, i, x, w);
    if !Past(s.workers[i], w) { InFlightBounded(s.workers, i, w); }
    PruneOk(KeyOf(s, w), s.recorded, s.clock, now, w);
  }

  lemma RecordKeepsCommitted(s: State, i: nat, w: Width)
    requires i < |s.workers| && s.workers[i].HourPassed?
    ensures CountAt(s.recorded + [s.workers[i].now], s.clock, Seconds(w)) + InFlight(s.workers[i := Idle], w)
            <= Committed(s, w)
  {
    InFlightUpdate(s.workers, i, Idle, w);
    PruneSnoc(s.recorded, s.workers[i].now, s.clock - Seconds(w));
  }

  ghost predicate WithinBound(s: State, l: Limits, w: Width) {
    |s.workers| >= 1 && Committed(s, w) <= LimitOf(l, w) + |s.workers| - 1
  }

  lemma CountStepCommitted(s: State, step: Step, l: Limits, w: Width)
    requires KeyInv(s, w) && ClocksOk(s) && Enabled(s, step) && WithinBound(s, l, w)
    requires step.CountMinute? || step.CountHour?
    ensures WithinBound(Next(s, step, l), l, w)
  {
    CountKeepsCommitted(s, step.w, Next(s, step, l).workers[step.w], LimitOf(l, w), s.workers[step.w].now, w);
  }

  lemma StepKeepsCommitted(s: State, step: Step, l: Limits, w: Width)
    requires KeyInv(s, w) && ClocksOk(s) && Enabled(s, step) && WithinBound(s, l, w)
    ensures WithinBound(Next(s, step, l), l, w)
  {
    match step
    case Tick(to) => TickOk(KeyOf(s, w), s.recorded, s.clock, to, w);
    case ReadUsage(now) =>
    case ClearAll => assert CountAt([], s.clock, Seconds(w)) == 0;
    case Start(i) => InFlightUpdate(s.workers, i, Started(s.clock), w);
    case CountMinute(_) => CountStepCommitted(s, step, l, w);
    case CountHour(_) => CountStepCommitted(s, step, l, w);
    case Record(i) => RecordKeepsCommitted(s, i, w);
  }

  lemma StepKeeps(s: State, step: Step, k: nat, l: Limits)
    requires k >= 1 && Invariant(s, k, l) && Enabled(s, step)
    ensures Invariant(Next(s, step, l), k, l)
  {
    StepKeepsKey(s, step, l, Minute);
    StepKeepsKey(s, step, l, Hour);
    StepKeepsCommitted(s, step, l, Minute);
    StepKeepsCommitted(s, step, l, Hour);
  }

  lemma {:induction false} InitialOk(k: nat, l: Limits)
    requires k >= 1
    ensures Invariant(Initial(k), k, l)
  {
    NobodyInFlight(Initial(k).workers, Minute);
    NobodyInFlight(Initial(k).workers, Hour);
  }

  lemma {:induction false} NobodyInFlight(ws: seq<Worker>, width: Width)
    requires forall i :: 0 <= i < |ws| ==> ws[i].Idle?
    ensures InFlight(ws, width) == 0
  {
    if ws != [] { NobodyInFlight(ws[..|ws| - 1], width); }
  }

  lemma {:induction false} RunKeeps(k: nat, steps: seq<Step>, l: Limits)
    requires k >= 1
    ensures Invariant(Exec(k, steps, l), k, l)
  {
    if steps == [] {
      InitialOk(k, l);
    } else {
      var front, last := steps[..|steps| - 1], steps[|steps| - 1];
      RunKeeps(k, front, l);
      if Enabled(Exec(k, front, l), last) { StepKeeps(Exec(k, front, l), last, k, l); }
    }
  }

  // With k workers, no reachable state has more than limit + k - 1 recorded calls in
  // its current minute or hour.
  lemma OverAdmissionBounded(k: nat, steps: seq<Step>, l: Limits)
    requires k >= 1
    ensures var s := Exec(k, steps, l);
            && CountAt(s.recorded, s.clock, MINUTE) <= l.perMinute + k - 1
            && CountAt(s.recorded, s.clock, HOUR) <= l.perHour + k - 1
  {
    RunKeeps(k, steps, l);
  }

  // ---------------------------------------------------------------------------
  // The bound is attained
  // ---------------------------------------------------------------------------

  // The four stages of a call, all at one time.
  function Stage(i: nat, at: real): Worker {
    if i == 1 then Started(at) else if i == 2 then MinutePassed(at)
    else if i == 3 then HourPassed(at) else Idle
  }

  function Advance(i: nat, w: nat): Step {
    if i == 0 then Start(w) else if i == 1 then CountMinute(w)
    else if i == 2 then CountHour(w) else Record(w)
  }

  // At time `at`, within the first hour: so many calls recorded, n of them in the last
  // minute, and the workers as given.
  ghost predicate Shape(s: State, at: real, total: nat, n: nat, ws: seq<Worker>) {
    && s.clock == at && 0.0 <= at < HOUR && s.workers == ws
    && |s.recorded| == total && Between(s.recorded, at) && CountAt(s.recorded, at, MINUTE) == n
  }

  predicate Between(log: seq<real>, at: real) { forall i :: 0 <= i < |log| ==> 0.0 <= log[i] <= at }

  // A worker with the current clock counts exactly the current window.
  lemma ExactCount(s: State, w: Width)
    requires KeyInv(s, w)
    ensures |ZPrune(KeyOf(s, w), s.clock, s.clock - Seconds(w)).scores| == CountAt(s.recorded, s.clock, Seconds(w))
  {
    LiveCounts(KeyOf(s, w), s.recorded, s.clock, w);
    assert SameAfter(Live(KeyOf(s, w), s.clock), s.recorded, s.clock - Seconds(w));
  }

  // How many calls are recorded when j workers have taken a stage.
  function Taken(stage: nat, n: nat, j: nat): nat { if stage == 3 then n + j else n }

  // Below the limits a count lets the worker on.
  lemma CountPasses(s: State, at: real, total: nat, n: nat, w: nat, l: Limits)
    requires Shape(s, at, total, n, s.workers) && KeyInv(s, Minute) && KeyInv(s, Hour)
    requires w < |s.workers| && n < l.perMinute && total < l.perHour
    ensures s.workers[w] == Started(at) ==> Next(s, CountMinute(w), l).workers == s.workers[w := MinutePassed(at)]
    ensures s.workers[w] == MinutePassed(at) ==> Next(s, CountHour(w), l).workers == s.workers[w := HourPassed(at)]
  {
    ExactCount(s, Minute);
    ExactCount(s, Hour);
    PruneNone(s.recorded, at - HOUR);
  }

  // One worker takes one stage; below the limits it passes.
  lemma AdvanceShape(s: State, at: real, total: nat, n: nat, w: nat, stage: nat, l: Limits)
    requires Shape(s, at, total, n, s.workers) && KeyInv(s, Minute) && KeyInv(s, Hour)
    requires w < |s.workers| && stage < 4 && s.workers[w] == Stage(stage, at)
    requires stage == 3 || (n < l.perMinute && total < l.perHour)
    ensures Enabled(s, Advance(stage, w))
    ensures Shape(Next(s, Advance(stage, w), l), at, Taken(stage, total, 1), Taken(stage, n, 1),
                  s.workers[w := Stage(stage + 1, at)])
  {
    if stage == 3 {
      PruneSnoc(s.recorded, at, at - MINUTE);
    } else {
      CountPasses(s, at, total, n, w, l);
    }
  }

  lemma ExecSnoc(k: nat, steps: seq<Step>, step: Step, l: Limits)
    requires Enabled(Exec(k, steps, l), step)
    ensures Exec(k, steps + [step], l) == Next(Exec(k, steps, l), step, l)
  {
    assert (steps + [step])[..|steps|] == steps;
  }

  // Worker w takes its next stage at the end of a run.
  lemma AdvanceRun(k: nat, before: seq<Step>, at: real, total: nat, n: nat, w: nat, stage: nat, l: Limits,
                   ws: seq<Worker>)
    returns (steps: seq<Step>)
    requires k >= 1 && Shape(Exec(k, before, l), at, total, n, ws)
    requires w < |ws| && stage < 4 && ws[w] == Stage(stage, at)
    requires stage == 3 || (n < l.perMinute && total < l.perHour)
    ensures Shape(Exec(k, steps, l), at, Taken(stage, total, 1), Taken(stage, n, 1), ws[w := Stage(stage + 1, at)])
  {
    RunKeeps(k, before, l);
    AdvanceShape(Exec(k, before, l), at, total, n, w, stage, l);
    ExecSnoc(k, before, Advance(stage, w), l);
    steps := before + [Advance(stage, w)];
  }

  // The first j of k workers have taken this stage.
  function Mixed(k: nat, j: nat, stage: nat, at: real): seq<Worker> {
    seq(k, i => if i < j then Stage(stage + 1, at) else Stage(stage, at))
  }

  lemma NobodyStarted(k: nat, at: real)
    ensures Mixed(k, 0, 0, at) == Initial(k).workers
  {
    var ws, idle := Mixed(k, 0, 0, at), Initial(k).workers;
    forall i | 0 <= i < k ensures ws[i] == idle[i] { assert ws[i] == Stage(0, at) == Idle; }
    assert ws == idle;
  }

  lemma MixedStep(k: nat, j: nat, stage: nat, at: real)
    requires 0 < j <= k
    ensures Mixed(k, j - 1, stage, at)[j - 1] == Stage(stage, at)
    ensures Mixed(k, j - 1, stage, at)[j - 1 := Stage(stage + 1, at)] == Mixed(k, j, stage, at)
  {
  }

  // Every worker in turn takes the same stage.
  lemma {:induction false} Sweep(k: nat, before: seq<Step>, at: real, total: nat, n: nat, stage: nat, j: nat, l: Limits)
    returns (steps: seq<Step>)
    requires k >= 1 && j <= k && stage < 4
    requires Shape(Exec(k, before, l), at, total, n, Mixed(k, 0, stage, at))
    requires stage == 3 || (n < l.perMinute && total < l.perHour)
    ensures Shape(Exec(k, steps, l), at, Taken(stage, total, j), Taken(stage, n, j), Mixed(k, j, stage, at))
    decreases j
  {
    steps := before;
    if j > 0 {
      steps := Sweep(k, before, at, total, n, stage, j - 1, l);
      MixedStep(k, j, stage, at);
      steps := AdvanceRun(k, steps, at, Taken(stage, total, j - 1), Taken(stage, n, j - 1), j - 1, stage, l,
                          Mixed(k, j - 1, stage, at));
    }
  }

  // Worker 0 makes one call.
  lemma OneCall(k: nat, before: seq<Step>, at: real, total: nat, n: nat, l: Limits) returns (steps: seq<Step>)
    requires k >= 1 && n < l.perMinute && total < l.perHour
    requires Shape(Exec(k, before, l), at, total, n, Mixed(k, 0, 0, at))
    ensures Shape(Exec(k, steps, l), at, total + 1, n + 1, Mixed(k, 0, 0, at))
  {
    var ws := Mixed(k, 0, 0, at);
    steps := AdvanceRun(k, before, at, total, n, 0, 0, l, ws);
    steps := AdvanceRun(k, steps, at, total, n, 0, 1, l, ws[0 := Stage(1, at)]);
    steps := AdvanceRun(k, steps, at, total, n, 0, 2, l, ws[0 := Stage(1, at)][0 := Stage(2, at)]);
    steps := AdvanceRun(k, steps, at, total, n, 0, 3, l, ws[0 := Stage(1, at)][0 := Stage(2, at)][0 := Stage(3, at)]);
    assert ws[0 := Stage(1, at)][0 := Stage(2, at)][0 := Stage(3, at)][0 := Idle] == ws;
  }

  // Worker 0 alone, n times over.
  lemma {:induction false} Serial(k: nat, before: seq<Step>, at: real, total: nat, n: nat, l: Limits)
    returns (steps: seq<Step>)
    requires k >= 1 && n <= l.perMinute && total + n <= l.perHour
    requires Shape(Exec(k, before, l), at, total, 0, Mixed(k, 0, 0, at))
    ensures Shape(Exec(k, steps, l), at, total + n, n, Mixed(k, 0, 0, at))
    decreases n
  {
    steps := before;
    if n > 0 {
      steps := Serial(k, before, at, total, n - 1, l);
      steps := OneCall(k, steps, at, total + n - 1, n - 1, l);
    }
  }

  // A minute later no call is in the minute window.
  lemma NextMinute(k: nat, before: seq<Step>, at: real, total: nat, n: nat, l: Limits) returns (steps: seq<Step>)
    requires k >= 1 && Shape(Exec(k, before, l), at, total, n, Mixed(k, 0, 0, at)) && at + MINUTE < HOUR
    ensures Shape(Exec(k, steps, l), at + MINUTE, total, 0, Mixed(k, 0, 0, at + MINUTE))
  {
    var s, tick := Exec(k, before, l), Tick(at + MINUTE);
    PruneAll(s.recorded, at);
    NobodyStarted(k, at);
    NobodyStarted(k, at + MINUTE);
    ExecSnoc(k, before, tick, l);
    steps := before + [tick];
  }

  // In each of m minutes, worker 0 makes as many calls as the minute allows.
  lemma {:induction false} FullMinutes(k: nat, m: nat, l: Limits) returns (steps: seq<Step>)
    requires k >= 1 && m < 60 && m * l.perMinute <= l.perHour
    ensures Shape(Exec(k, steps, l), m as real * MINUTE, m * l.perMinute, 0, Mixed(k, 0, 0, m as real * MINUTE))
    decreases m
  {
    steps := [];
    if m == 0 {
      NobodyStarted(k, 0.0);
    } else {
      var at, total := (m - 1) as real * MINUTE, (m - 1) * l.perMinute;
      assert m * l.perMinute == total + l.perMinute;
      steps := FullMinutes(k, m - 1, l);
      steps := Serial(k, steps, at, total, l.perMinute, l);
      steps := NextMinute(k, steps, at, total + l.perMinute, l.perMinute, l);
    }
  }

  ghost function Recorded(k: nat, steps: seq<Step>, l: Limits, w: Width): nat {
    var s := Exec(k, steps, l);
    CountAt(s.recorded, s.clock, Seconds(w))
  }

  // All k workers call at once.
  lemma AllAtOnce(k: nat, before: seq<Step>, at: real, total: nat, n: nat, l: Limits) returns (steps: seq<Step>)
    requires k >= 1 && n < l.perMinute && total < l.perHour
    requires Shape(Exec(k, before, l), at, total, n, Mixed(k, 0, 0, at))
    ensures Recorded(k, steps, l, Minute) == n + k && Recorded(k, steps, l, Hour) == total + k
  {
    steps := Sweep(k, before, at, total, n, 0, k, l);
    assert Mixed(k, k, 0, at) == Mixed(k, 0, 1, at);
    steps := Sweep(k, steps, at, total, n, 1, k, l);
    assert Mixed(k, k, 1, at) == Mixed(k, 0, 2, at);
    steps := Sweep(k, steps, at, total, n, 2, k, l);
    assert Mixed(k, k, 2, at) == Mixed(k, 0, 3, at);
    steps := Sweep(k, steps, at, total, n, 3, k, l);
    PruneNone(Exec(k, steps, l).recorded, at - HOUR);
  }

  // After m full minutes and n more calls, all k workers call at once.
  lemma Burst(k: nat, m: nat, n: nat, l: Limits) returns (steps: seq<Step>)
    requires k >= 1 && m < 60 && n < l.perMinute && m * l.perMinute + n < l.perHour
    ensures Recorded(k, steps, l, Minute) == n + k
    ensures Recorded(k, steps, l, Hour) == m * l.perMinute + n + k
  {
    var at, total := m as real * MINUTE, m * l.perMinute;
    steps := FullMinutes(k, m, l);
    steps := Serial(k, steps, at, total, n, l);
    steps := AllAtOnce(k, steps, at, total + n, n, l);
  }

  lemma FullAndRest(total: nat, each: nat) returns (m: nat, n: nat)
    requires total < 60 * each
    ensures m < 60 && n < each && m * each + n == total
  {
    m, n := total / each, total % each;
    assert total == each * m + n;
    assert m >= 60 ==> each * m >= each * 60;
  }

  // The bound cannot be lowered: k workers do reach limit + k - 1 calls, in one minute and,
  // where the minute limit lets the hour limit be reached at all, in one hour.
  lemma OverAdmissionAttained(k: nat, l: Limits)
    requires k >= 1 && 1 <= l.perMinute && 1 <= l.perHour
    ensures l.perMinute <= l.perHour ==> exists steps :: Recorded(k, steps, l, Minute) == l.perMinute + k - 1
    ensures l.perHour <= 60 * l.perMinute ==> exists steps :: Recorded(k, steps, l, Hour) == l.perHour + k - 1
  {
    if l.perMinute <= l.perHour {
      var steps := Burst(k, 0, l.perMinute - 1, l);
      assert Recorded(k, steps, l, Minute) == l.perMinute + k - 1;
    }
    if l.perHour <= 60 * l.perMinute {
      var m, n := FullAndRest(l.perHour - 1, l.perMinute);
      var steps := Burst(k, m, n, l);
      assert Recorded(k, steps, l, Hour) == l.perHour + k - 1;
    }
  }
}
