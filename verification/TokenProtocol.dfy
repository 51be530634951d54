// resolve_token for one user and provider: the token cache, the connection row and the
// refresh lock, as interleaved steps of several workers.
module TokenProtocol {
  import opened Prelude

  const LOCK_TTL := 30.0
  const CACHE_TTL := 300.0
  const EXPIRY_BUFFER := 60.0
  const RETRY_SLEEP := 2.0

  // An access token with its recorded expiry.
  datatype Token = Token(id: nat, expires: Option<real>)

  // A row of the connection table; an empty refresh token is falsy.
  datatype Conn = Conn(token: Token, refresh: string)

  // What the token endpoint answered: the refresh token may be absent.
  datatype Reply = Reply(id: nat, refresh: Option<string>, expiresIn: Option<int>)

  datatype Worker =
    | Idle
    | CheckCache
    | ReadConn
    | WantLock(conn: Conn)
    | Asleep(until: real)
    | Inside(conn: Conn, since: real)                       // lock held; posting
    | Writing(row: Conn, since: real, readAt: real)       // reply in hand; updating the row
    | Releasing(result: Option<Token>, since: real, readAt: real)
    | Filling(token: Token, readAt: real, own: bool)        // token in hand; caching it

  datatype Lock = Lock(owner: nat, deadline: real)
  datatype Cached = Cached(token: Token, deadline: real)
  datatype Return = Return(token: Token, at: real)

  datatype Sys = Sys(
    clock: real,
    lock: Option<Lock>,
    conn: Option<Conn>,
    cache: Option<Cached>,
    workers: seq<Worker>,
    returned: seq<Return>
  )

  datatype Step =
    | Tick(to: real)
    | Begin(w: nat)
    | LookInCache(w: nat)
    | LookInTable(w: nat)
    | TryLock(w: nat)
    | Wake(w: nat)
    | Receive(w: nat, reply: Option<Reply>)   // None: the request failed
    | Update(w: nat)
    | Release(w: nat)
    | Fill(w: nat)
    | Connect(conn: Conn)                     // a callback upserts the row
    | Disconnect
    | Invalidate                              // the cached token is deleted

  // _is_expired: within the next 60 seconds.
  predicate IsExpired(t: Token, now: real) {
    t.expires.Some? && t.expires.value <= now + EXPIRY_BUFFER
  }

  function MakeExpiresAt(expiresIn: Option<int>, now: real): Option<real> {
    if expiresIn.None? || expiresIn.value == 0 then None else Some(now + expiresIn.value as real)
  }

  // The new refresh token if there is a truthy one, else the old.
  function NextRefresh(reply: Reply, previous: string): string {
    if reply.refresh.Some? && reply.refresh.value != "" then reply.refresh.value else previous
  }

  predicate InSection(w: Worker) { w.Inside? || w.Writing? || w.Releasing? }

  predicate LockFree(s: Sys) { s.lock.None? || s.clock >= s.lock.value.deadline }

  // What the environment promises: a refresh section ends less than `section` seconds
  // after it began, a token in hand is cached within `delay` seconds, and a refreshed token
  // that expires at all lives at least `life` seconds.
  datatype Timing = Timing(section: real, delay: real, life: int)

  // An expires_in of 0 counts as none.
  function LeastLife(t: Timing): int { if t.life == 0 then 1 else t.life }

  // How long any token in hand lives at least: tokens read from the table live 60 seconds.
  function Margin(t: Timing): real {
    if LeastLife(t) <= 60 then LeastLife(t) as real else EXPIRY_BUFFER
  }

  // How far past its expiry a token can be in the cache.
  function Lateness(t: Timing): real { CACHE_TTL - Margin(t) }

  predicate OnTime(s: Sys, to: real, t: Timing) {
    forall i :: 0 <= i < |s.workers| ==>
      && (InSection(s.workers[i]) ==> to < s.workers[i].since + t.section)
      && ((s.workers[i].Filling? || s.workers[i].Writing? || s.workers[i].Releasing?) ==>
            to <= s.workers[i].readAt + t.delay)
  }

  predicate Enabled(s: Sys, step: Step, refreshUrl: bool, t: Timing) {
    match step
    case Tick(to) => s.clock <= to && OnTime(s, to, t)
    case Begin(w) => w < |s.workers| && s.workers[w].Idle?
    case LookInCache(w) => w < |s.workers| && s.workers[w].CheckCache?
    case LookInTable(w) => w < |s.workers| && s.workers[w].ReadConn?
    case TryLock(w) => w < |s.workers| && s.workers[w].WantLock?
    case Wake(w) => w < |s.workers| && s.workers[w].Asleep? && s.clock >= s.workers[w].until
    case Receive(w, r) =>
      && w < |s.workers| && s.workers[w].Inside?
      && (r.Some? && r.value.expiresIn.Some? && r.value.expiresIn.value != 0 ==> r.value.expiresIn.value >= t.life)
    case Update(w) => w < |s.workers| && s.workers[w].Writing?
    case Release(w) => w < |s.workers| && s.workers[w].Releasing?
    case Fill(w) => w < |s.workers| && s.workers[w].Filling?
    case _ => true
  }

  function Move(s: Sys, w: nat, to: Worker): Sys
    requires w < |s.workers|
  {
    s.(workers := s.workers[w := to])
  }

  function Next(s: Sys, step: Step, refreshUrl: bool, t: Timing): Sys
    requires Enabled(s, step, refreshUrl, t)
  {
    match step
    case Tick(to) => s.(clock := to)
    case Begin(w) => Move(s, w, CheckCache)
    case LookInCache(w) =>
      if s.cache.Some? && s.clock < s.cache.value.deadline
      then Move(s, w, Idle).(returned := s.returned + [Return(s.cache.value.token, s.clock)])
      else Move(s, w, ReadConn)
    case LookInTable(w) =>
      if s.conn.None? then Move(s, w, Idle)
      else if !IsExpired(s.conn.value.token, s.clock) then Move(s, w, Filling(s.conn.value.token, s.clock, false))
      else if !refreshUrl || s.conn.value.refresh == "" then Move(s, w, Idle)
      else Move(s, w, WantLock(s.conn.value))
    case TryLock(w) =>
      if LockFree(s)
      then Move(s, w, Inside(s.workers[w].conn, s.clock)).(lock := Some(Lock(w, s.clock + LOCK_TTL)))
      else Move(s, w, Asleep(s.clock + RETRY_SLEEP))
    case Wake(w) =>
      if s.conn.Some? && !IsExpired(s.conn.value.token, s.clock)
      then Move(s, w, Filling(s.conn.value.token, s.clock, false))
      else Move(s, w, Idle)
    case Receive(w, r) =>
      var wk := s.workers[w];
      if r.None? then Move(s, w, Releasing(None, wk.since, s.clock))
      else
        var token := Token(r.value.id, MakeExpiresAt(r.value.expiresIn, s.clock));
        Move(s, w, Writing(Conn(token, NextRefresh(r.value, wk.conn.refresh)), wk.since, s.clock))
    case Update(w) =>
      var wk := s.workers[w];
      Move(s, w, Releasing(Some(wk.row.token), wk.since, wk.readAt))
        .(conn := if s.conn.Some? then Some(wk.row) else None)
    case Release(w) =>
      var wk := s.workers[w];
      Move(s, w, if wk.result.Some? then Filling(wk.result.value, wk.readAt, true) else Idle).(lock := None)
    case Fill(w) =>
      var wk := s.workers[w];
      Move(s, w, Idle).(cache := Some(Cached(wk.token, s.clock + CACHE_TTL)),
                        returned := s.returned + [Return(wk.token, s.clock)])
    case Connect(c) => s.(conn := Some(c))
    case Disconnect => s.(conn := None)
    case Invalidate => s.(cache := None)
  }

  function Initial(k: nat): Sys {
    Sys(0.0, None, None, None, seq(k, _ => Idle), [])
  }

  // The state after a run; a step that is not enabled is skipped.
  function Exec(k: nat, steps: seq<Step>, refreshUrl: bool, t: Timing): Sys {
    if steps == [] then Initial(k)
    else
      var s := Exec(k, steps[..|steps| - 1], refreshUrl, t);
      if Enabled(s, steps[|steps| - 1], refreshUrl, t) then Next(s, steps[|steps| - 1], refreshUrl, t) else s
  }

  // ---------------------------------------------------------------------------
  // Mutual exclusion
  // ---------------------------------------------------------------------------

  // Whoever is in the section holds the lock, alive until 30 s after entry.
  ghost predicate Exclusive(s: Sys) {
    forall i :: 0 <= i < |s.workers| && InSection(s.workers[i]) ==>
      s.lock == Some(Lock(i, s.workers[i].since + LOCK_TTL)) && s.clock < s.workers[i].since + LOCK_TTL
  }

  lemma StepExclusive(s: Sys, step: Step, u: bool, t: Timing)
    requires Exclusive(s) && Enabled(s, step, u, t) && t.section <= LOCK_TTL
    ensures Exclusive(Next(s, step, u, t))
  {
  }

  // ---------------------------------------------------------------------------
  // Freshness
  // ---------------------------------------------------------------------------

  predicate LivesFrom(t: Token, r: real, margin: real) {
    t.expires.Some? ==> t.expires.value >= r + margin
  }

  // At time `at` the token is not more than `late` past its expiry.
  predicate LateLess(t: Token, at: real, late: real) {
    t.expires.Some? ==> at < t.expires.value + late
  }

  predicate WorkerFresh(w: Worker, clock: real, t: Timing) {
    match w
    case Writing(c, _, r) => c.refresh != "" && LivesFrom(c.token, r, Margin(t)) && r <= clock <= r + t.delay
    case Releasing(result, _, r) =>
      r <= clock <= r + t.delay && (result.Some? ==> LivesFrom(result.value, r, Margin(t)))
    case Filling(token, r, own) =>
      LivesFrom(token, r, Margin(t)) && r <= clock <= r + t.delay && (own || !IsExpired(token, r))
    case WantLock(c) => c.refresh != ""
    case Inside(c, _) => c.refresh != ""
    case _ => true
  }

  predicate CacheFresh(c: Cached, clock: real, t: Timing) {
    && c.deadline <= clock + CACHE_TTL
    && (c.token.expires.Some? ==> c.deadline <= c.token.expires.value + Lateness(t) + t.delay)
  }

  ghost predicate Fresh(s: Sys, t: Timing) {
    && (forall i :: 0 <= i < |s.workers| ==> WorkerFresh(s.workers[i], s.clock, t))
    && (s.cache.Some? ==> CacheFresh(s.cache.value, s.clock, t))
    && (forall i :: 0 <= i < |s.returned| ==>
          LateLess(s.returned[i].token, s.returned[i].at, Lateness(t) + t.delay))
  }

  lemma StepFresh(s: Sys, step: Step, u: bool, t: Timing)
    requires Fresh(s, t) && Enabled(s, step, u, t) && t.delay >= 0.0
    ensures Fresh(Next(s, step, u, t), t)
  {
    var s' := Next(s, step, u, t);
    forall i | 0 <= i < |s'.workers| ensures WorkerFresh(s'.workers[i], s'.clock, t) {
      assert WorkerFresh(s.workers[i], s.clock, t);
    }
    if step.Fill? { assert WorkerFresh(s.workers[step.w], s.clock, t); }
  }

  lemma {:induction false} RunExclusive(k: nat, steps: seq<Step>, u: bool, t: Timing)
    requires t.section <= LOCK_TTL
    ensures Exclusive(Exec(k, steps, u, t))
  {
    if steps != [] {
      var front, last := steps[..|steps| - 1], steps[|steps| - 1];
      RunExclusive(k, front, u, t);
      if Enabled(Exec(k, front, u, t), last, u, t) { StepExclusive(Exec(k, front, u, t), last, u, t); }
    }
  }

  lemma {:induction false} RunFresh(k: nat, steps: seq<Step>, u: bool, t: Timing)
    requires t.delay >= 0.0
    ensures Fresh(Exec(k, steps, u, t), t)
  {
    if steps != [] {
      var front, last := steps[..|steps| - 1], steps[|steps| - 1];
      RunFresh(k, front, u, t);
      if Enabled(Exec(k, front, u, t), last, u, t) { StepFresh(Exec(k, front, u, t), last, u, t); }
    }
  }

  // ---------------------------------------------------------------------------
  // Main results
  // ---------------------------------------------------------------------------

  ghost predicate MutualExclusion(s: Sys) {
    forall i, j :: 0 <= i < j < |s.workers| ==> !(InSection(s.workers[i]) && InSection(s.workers[j]))
  }

  // When sections end within the 30 seconds the lock lives, at most one worker is refreshing,
  // and each release deletes its own lock.
  lemma RefreshIsExclusive(k: nat, steps: seq<Step>, u: bool, t: Timing)
    requires t.section <= 30.0
    ensures var s := Exec(k, steps, u, t);
            && MutualExclusion(s)
            && forall w :: Enabled(s, Release(w), u, t) ==> s.lock.Some? && s.lock.value.owner == w
  {
    RunExclusive(k, steps, u, t);
  }

  // Worker w has begun no new call since step i.
  predicate SameCall(k: nat, steps: seq<Step>, u: bool, t: Timing, w: nat, i: nat) {
    forall j :: i <= j < |steps| && steps[j] == Begin(w) ==> !Enabled(Exec(k, steps[..j], u, t), Begin(w), u, t)
  }

  // At step i of its current call worker w received this token in answer to its own refresh.
  predicate ReceivedAt(k: nat, steps: seq<Step>, u: bool, t: Timing, w: nat, i: nat, token: Token, at: real) {
    && i < |steps| && steps[i].Receive? && steps[i].w == w && steps[i].reply.Some?
    && Enabled(Exec(k, steps[..i], u, t), steps[i], u, t) && Exec(k, steps[..i], u, t).clock == at
    && token == Token(steps[i].reply.value.id, MakeExpiresAt(steps[i].reply.value.expiresIn, at))
    && SameCall(k, steps, u, t, w, i)
  }

  predicate TableHolds(s: Sys, token: Token) { s.conn.Some? && s.conn.value.token == token }

  // At step i of its current call worker w read this token from the table.
  predicate ReadAt(k: nat, steps: seq<Step>, u: bool, t: Timing, w: nat, i: nat, token: Token, at: real) {
    && i < |steps| && (steps[i] == LookInTable(w) || steps[i] == Wake(w))
    && Enabled(Exec(k, steps[..i], u, t), steps[i], u, t) && Exec(k, steps[..i], u, t).clock == at
    && TableHolds(Exec(k, steps[..i], u, t), token)
    && SameCall(k, steps, u, t, w, i)
  }

  ghost predicate Received(k: nat, steps: seq<Step>, u: bool, t: Timing, w: nat, token: Token, at: real) {
    exists i: nat :: ReceivedAt(k, steps, u, t, w, i, token, at)
  }

  ghost predicate WasRead(k: nat, steps: seq<Step>, u: bool, t: Timing, w: nat, token: Token, at: real) {
    exists i: nat :: ReadAt(k, steps, u, t, w, i, token, at)
  }

  // Where the token a worker holds comes from.
  ghost predicate HasOrigin(k: nat, steps: seq<Step>, u: bool, t: Timing, w: nat, wk: Worker) {
    match wk
    case Writing(row, _, at) => Received(k, steps, u, t, w, row.token, at)
    case Releasing(result, _, at) => result.Some? ==> Received(k, steps, u, t, w, result.value, at)
    case Filling(token, at, own) =>
      if own then Received(k, steps, u, t, w, token, at) else WasRead(k, steps, u, t, w, token, at)
    case _ => true
  }

  lemma SameCallGrows(k: nat, front: seq<Step>, last: Step, u: bool, t: Timing, w: nat, i: nat)
    requires SameCall(k, front, u, t, w, i)
    requires last == Begin(w) ==> !Enabled(Exec(k, front, u, t), last, u, t)
    ensures SameCall(k, front + [last], u, t, w, i)
  {
    var steps := front + [last];
    assert steps[..|front|] == front;
    forall j | i <= j < |front| && steps[j] == Begin(w) ensures !Enabled(Exec(k, steps[..j], u, t), Begin(w), u, t) {
      assert steps[..j] == front[..j];
    }
  }

  lemma OriginGrows(k: nat, front: seq<Step>, last: Step, u: bool, t: Timing, w: nat, wk: Worker)
    requires HasOrigin(k, front, u, t, w, wk)
    requires last == Begin(w) ==> !Enabled(Exec(k, front, u, t), last, u, t)
    ensures HasOrigin(k, front + [last], u, t, w, wk)
  {
    var steps := front + [last];
    forall i: nat, token, at | ReceivedAt(k, front, u, t, w, i, token, at)
      ensures ReceivedAt(k, steps, u, t, w, i, token, at)
    {
      SameCallGrows(k, front, last, u, t, w, i);
      assert steps[..i] == front[..i];
    }
    forall i: nat, token, at | ReadAt(k, front, u, t, w, i, token, at) ensures ReadAt(k, steps, u, t, w, i, token, at) {
      SameCallGrows(k, front, last, u, t, w, i);
      assert steps[..i] == front[..i];
    }
  }

  // A step that puts a token into a worker's hand.
  lemma NewOrigin(k: nat, front: seq<Step>, last: Step, u: bool, t: Timing, w: nat)
    requires Enabled(Exec(k, front, u, t), last, u, t) && w < |Exec(k, front, u, t).workers|
    requires last.Receive? ==> last.w == w && last.reply.Some?
    requires last.Receive? || last == LookInTable(w) || last == Wake(w)
    ensures HasOrigin(k, front + [last], u, t, w, Next(Exec(k, front, u, t), last, u, t).workers[w])
  {
    var steps := front + [last];
    assert steps[..|front|] == front;
    var wk := Next(Exec(k, front, u, t), last, u, t).workers[w];
    assert SameCall(k, steps, u, t, w, |front|);
    if last.Receive? {
      assert ReceivedAt(k, steps, u, t, w, |front|, wk.row.token, wk.readAt);
    } else if wk.Filling? {
      assert ReadAt(k, steps, u, t, w, |front|, wk.token, wk.readAt);
    }
  }

  lemma OriginStep(k: nat, front: seq<Step>, last: Step, u: bool, t: Timing, w: nat)
    requires Enabled(Exec(k, front, u, t), last, u, t) && w < |Exec(k, front, u, t).workers|
    requires HasOrigin(k, front, u, t, w, Exec(k, front, u, t).workers[w])
    ensures HasOrigin(k, front + [last], u, t, w, Next(Exec(k, front, u, t), last, u, t).workers[w])
  {
    var was, wk := Exec(k, front, u, t).workers[w], Next(Exec(k, front, u, t), last, u, t).workers[w];
    if (last.Receive? && last.w == w && last.reply.Some?) || last == LookInTable(w) || last == Wake(w) {
      NewOrigin(k, front, last, u, t, w);
    } else if last != Begin(w) {
      OriginGrows(k, front, last, u, t, w, was);
    }
  }

  lemma {:induction false} OriginHolds(k: nat, steps: seq<Step>, u: bool, t: Timing, w: nat)
    requires w < |Exec(k, steps, u, t).workers|
    ensures HasOrigin(k, steps, u, t, w, Exec(k, steps, u, t).workers[w])
  {
    if steps != [] {
      var front, last := steps[..|steps| - 1], steps[|steps| - 1];
      OriginHolds(k, front, u, t, w);
      assert steps == front + [last];
      if Enabled(Exec(k, front, u, t), last, u, t) {
        OriginStep(k, front, last, u, t, w);
      } else {
        OriginGrows(k, front, last, u, t, w, Exec(k, front, u, t).workers[w]);
      }
    }
  }

  // A token in hand was either read from the table during this call, and had more than 60
  // seconds left then, or received in answer to this call's own refresh.
  lemma TokensInHandAreFresh(k: nat, steps: seq<Step>, u: bool, t: Timing, w: nat)
    requires t.delay >= 0.0 && w < |Exec(k, steps, u, t).workers| && Exec(k, steps, u, t).workers[w].Filling?
    ensures var wk := Exec(k, steps, u, t).workers[w];
            || Received(k, steps, u, t, w, wk.token, wk.readAt)
            || (WasRead(k, steps, u, t, w, wk.token, wk.readAt) && !IsExpired(wk.token, wk.readAt))
    ensures var wk := Exec(k, steps, u, t).workers[w];
            LivesFrom(wk.token, wk.readAt, Margin(t))
  {
    RunFresh(k, steps, u, t);
    OriginHolds(k, steps, u, t, w);
    assert WorkerFresh(Exec(k, steps, u, t).workers[w], Exec(k, steps, u, t).clock, t);
  }

  // A refresh never empties the stored refresh token.
  lemma RefreshKeepsRefreshToken(k: nat, steps: seq<Step>, u: bool, t: Timing, w: nat)
    requires t.delay >= 0.0 && Enabled(Exec(k, steps, u, t), Update(w), u, t)
    ensures var s' := Next(Exec(k, steps, u, t), Update(w), u, t);
            s'.conn.Some? ==> s'.conn.value.refresh != ""
  {
    RunFresh(k, steps, u, t);
    assert WorkerFresh(Exec(k, steps, u, t).workers[w], Exec(k, steps, u, t).clock, t);
  }

  // Over every interleaving, no token is returned as late as the cache life less the least
  // life of a token past its expiry, plus the time it may take to cache one: 240 seconds
  // where refreshed tokens live at least 60.
  lemma LatenessBounded(k: nat, steps: seq<Step>, u: bool, t: Timing)
    requires t.delay >= 0.0
    ensures var s := Exec(k, steps, u, t);
            forall i :: 0 <= i < |s.returned| ==>
              LateLess(s.returned[i].token, s.returned[i].at, Lateness(t) + t.delay)
    ensures t.life >= 60 ==> Lateness(t) == 240.0
  {
    RunFresh(k, steps, u, t);
  }

  // ---------------------------------------------------------------------------
  // The condition on sections is exact
  // ---------------------------------------------------------------------------

  lemma Extend(k: nat, steps: seq<Step>, step: Step, t: Timing) returns (more: seq<Step>)
    requires Enabled(Exec(k, steps, true, t), step, true, t)
    ensures Exec(k, more, true, t) == Next(Exec(k, steps, true, t), step, true, t)
  {
    more := steps + [step];
    assert more[..|steps|] == steps;
  }

  // Two workers have read the same expired row and want the lock.
  lemma BothWait(t: Timing, row: Conn) returns (r: seq<Step>)
    requires row.token.expires == Some(0.0) && row.refresh != ""
    ensures Exec(2, r, true, t) == Sys(0.0, None, Some(row), None, [WantLock(row), WantLock(row)], [])
  {
    r := Extend(2, [], Connect(row), t);
    r := Extend(2, r, Begin(0), t);
    r := Extend(2, r, LookInCache(0), t);
    r := Extend(2, r, LookInTable(0), t);
    r := Extend(2, r, Begin(1), t);
    r := Extend(2, r, LookInCache(1), t);
    r := Extend(2, r, LookInTable(1), t);
  }

  // If a section may outlast the lock, two workers can be refreshing at once.
  lemma LongSectionsOverlap(t: Timing)
    requires t.section > 30.0
    ensures exists steps :: !MutualExclusion(Exec(2, steps, true, t))
  {
    var r := BothWait(t, Conn(Token(0, Some(0.0)), "r"));
    r := Extend(2, r, TryLock(0), t);
    r := Extend(2, r, Tick(LOCK_TTL), t);
    r := Extend(2, r, TryLock(1), t);
    var s := Exec(2, r, true, t);
    assert InSection(s.workers[0]) && InSection(s.workers[1]);
  }

  // ---------------------------------------------------------------------------
  // The row is read before the lock is taken, and not again
  // ---------------------------------------------------------------------------

  // The step writes the row: an upsert, or an update or deletion that finds it.
  predicate WritesRow(s: Sys, step: Step, u: bool, t: Timing) {
    Enabled(s, step, u, t) && (step.Connect? || ((step.Update? || step.Disconnect?) && s.conn.Some?))
  }

  // Any row worker w waits with or refreshes from is this one.
  predicate Holds(s: Sys, w: nat, row: Option<Conn>) {
    w < |s.workers| && (s.workers[w].WantLock? || s.workers[w].Inside? ==> row == Some(s.workers[w].conn))
  }

  lemma StepKeepsRow(s: Sys, step: Step, u: bool, t: Timing, w: nat, row: Option<Conn>)
    requires Enabled(s, step, u, t) && Holds(s, w, row) && step != LookInTable(w)
    ensures Holds(Next(s, step, u, t), w, row)
  {
  }

  lemma UnwrittenStep(s: Sys, step: Step, u: bool, t: Timing)
    requires Enabled(s, step, u, t) && !WritesRow(s, step, u, t)
    ensures Next(s, step, u, t).conn == s.conn
  {
  }

  // The state after a prefix of the steps that follow `read`.
  function Later(k: nat, read: seq<Step>, after: seq<Step>, n: nat, u: bool, t: Timing): Sys
    requires n <= |after|
  {
    Exec(k, read + after[..n], u, t)
  }

  lemma LaterStep(k: nat, read: seq<Step>, after: seq<Step>, n: nat, u: bool, t: Timing)
    requires n < |after|
    ensures var s := Later(k, read, after, n, u, t);
            Later(k, read, after, n + 1, u, t) == if Enabled(s, after[n], u, t) then Next(s, after[n], u, t) else s
  {
    var steps := read + after[..n + 1];
    assert steps[..|steps| - 1] == read + after[..n];
  }

  // Step n of `after` writes the row.
  predicate WritesAt(k: nat, read: seq<Step>, after: seq<Step>, n: nat, u: bool, t: Timing) {
    n < |after| && WritesRow(Later(k, read, after, n, u, t), after[n], u, t)
  }

  // Worker w reads the row no second time among the first n steps of `after`.
  predicate ReadsNoMore(k: nat, read: seq<Step>, after: seq<Step>, n: nat, u: bool, t: Timing, w: nat)
    requires n <= |after|
  {
    forall j :: 0 <= j < n && after[j] == LookInTable(w) ==> !Enabled(Later(k, read, after, j, u, t), after[j], u, t)
  }

  lemma {:induction false} RowKept(k: nat, before: seq<Step>, after: seq<Step>, n: nat, u: bool, t: Timing, w: nat)
    requires Enabled(Exec(k, before, u, t), LookInTable(w), u, t) && n <= |after|
    requires ReadsNoMore(k, before + [LookInTable(w)], after, n, u, t, w)
    ensures Holds(Later(k, before + [LookInTable(w)], after, n, u, t), w, Exec(k, before, u, t).conn)
  {
    var read := before + [LookInTable(w)];
    if n == 0 {
      assert read + after[..0] == read && read[..|before|] == before;
    } else {
      RowKept(k, before, after, n - 1, u, t, w);
      LaterStep(k, read, after, n - 1, u, t);
      var s := Later(k, read, after, n - 1, u, t);
      if Enabled(s, after[n - 1], u, t) { StepKeepsRow(s, after[n - 1], u, t, w, Exec(k, before, u, t).conn); }
    }
  }

  // While nothing writes the row it stays as it was.
  lemma {:induction false} Unwritten(k: nat, read: seq<Step>, after: seq<Step>, m: nat, n: nat, u: bool, t: Timing)
    requires m <= n <= |after| && forall j: nat :: m <= j < n ==> !WritesAt(k, read, after, j, u, t)
    ensures Later(k, read, after, n, u, t).conn == Later(k, read, after, m, u, t).conn
    decreases n
  {
    if m < n {
      Unwritten(k, read, after, m, n - 1, u, t);
      LaterStep(k, read, after, n - 1, u, t);
      assert !WritesAt(k, read, after, n - 1, u, t);
      var s := Later(k, read, after, n - 1, u, t);
      if Enabled(s, after[n - 1], u, t) { UnwrittenStep(s, after[n - 1], u, t); }
    }
  }

  // The last of the first n steps to write the row.
  lemma {:induction false} LastWrite(k: nat, read: seq<Step>, after: seq<Step>, n: nat, u: bool, t: Timing)
    returns (last: nat)
    requires n <= |after| && exists j: nat :: j < n && WritesAt(k, read, after, j, u, t)
    ensures last < n && WritesAt(k, read, after, last, u, t)
    ensures forall j: nat :: last < j < n ==> !WritesAt(k, read, after, j, u, t)
  {
    if WritesAt(k, read, after, n - 1, u, t) {
      last := n - 1;
    } else {
      last := LastWrite(k, read, after, n - 1, u, t);
    }
  }

  predicate Stores(s: Sys, refresh: string) { s.conn.Some? && s.conn.value.refresh == refresh }

  // Every write of `after` leaves another refresh token, or no row.
  ghost predicate Rotates(k: nat, read: seq<Step>, after: seq<Step>, refresh: string, u: bool, t: Timing) {
    forall j: nat :: WritesAt(k, read, after, j, u, t) ==> !Stores(Later(k, read, after, j + 1, u, t), refresh)
  }

  lemma LaterEnds(k: nat, read: seq<Step>, after: seq<Step>, u: bool, t: Timing)
    ensures Later(k, read, after, 0, u, t) == Exec(k, read, u, t)
    ensures Later(k, read, after, |after|, u, t) == Exec(k, read + after, u, t)
  {
    assert after[..|after|] == after && read + after[..0] == read;
  }

  // After a write that leaves another token, and only such writes, that other token stays.
  lemma WrittenNotStored(k: nat, read: seq<Step>, after: seq<Step>, refresh: string, u: bool, t: Timing, j: nat)
    requires Rotates(k, read, after, refresh, u, t) && WritesAt(k, read, after, j, u, t)
    ensures !Stores(Later(k, read, after, |after|, u, t), refresh)
  {
    var last := LastWrite(k, read, after, |after|, u, t);
    Unwritten(k, read, after, last + 1, |after|, u, t);
    assert !Stores(Later(k, read, after, last + 1, u, t), refresh);
  }

  lemma StoredIffUnwritten(k: nat, read: seq<Step>, after: seq<Step>, refresh: string, u: bool, t: Timing)
    requires Rotates(k, read, after, refresh, u, t) && Stores(Exec(k, read, u, t), refresh)
    ensures Stores(Exec(k, read + after, u, t), refresh) <==>
              forall j: nat :: j < |after| ==> !WritesAt(k, read, after, j, u, t)
  {
    LaterEnds(k, read, after, u, t);
    if j: nat :| j < |after| && WritesAt(k, read, after, j, u, t) {
      WrittenNotStored(k, read, after, refresh, u, t, j);
    } else {
      Unwritten(k, read, after, 0, |after|, u, t);
    }
  }

  // A refresh posts the refresh token of the row as it was read. Where writes rotate it, the
  // token posted is the stored one if and only if no step since the read wrote the row.
  lemma PostedTokenCurrentIff(k: nat, before: seq<Step>, after: seq<Step>, u: bool, t: Timing, w: nat)
    requires Enabled(Exec(k, before, u, t), LookInTable(w), u, t)
    requires ReadsNoMore(k, before + [LookInTable(w)], after, |after|, u, t, w)
    requires var s := Exec(k, before + [LookInTable(w)] + after, u, t);
             w < |s.workers| && s.workers[w].Inside?
    ensures var row := Exec(k, before, u, t).conn;
            var read := before + [LookInTable(w)];
            var s := Exec(k, read + after, u, t);
            && row == Some(s.workers[w].conn)
            && (Rotates(k, read, after, s.workers[w].conn.refresh, u, t) ==>
                  (Stores(s, s.workers[w].conn.refresh) <==>
                   forall j: nat :: j < |after| ==> !WritesAt(k, read, after, j, u, t)))
  {
    var read := before + [LookInTable(w)];
    assert after[..|after|] == after && read[..|before|] == before;
    RowKept(k, before, after, |after|, u, t, w);
    var refresh := Exec(k, read + after, u, t).workers[w].conn.refresh;
    if Rotates(k, read, after, refresh, u, t) { StoredIffUnwritten(k, read, after, refresh, u, t); }
  }

  // The first of two workers, whose sections never overlap, rotates the token; the second
  // then posts the old one.
  lemma StaleTokenPosted(t: Timing)
    ensures exists steps :: PostsStale(Exec(2, steps, true, t), 1)
  {
    var r := BothWait(t, Conn(Token(0, Some(0.0)), "old"));
    r := Extend(2, r, TryLock(0), t);
    r := Extend(2, r, Receive(0, Some(Reply(1, Some("new"), None))), t);
    r := Extend(2, r, Update(0), t);
    r := Extend(2, r, Release(0), t);
    r := Extend(2, r, TryLock(1), t);
    assert PostsStale(Exec(2, r, true, t), 1);
  }

  // Worker w alone is refreshing, with a token the row no longer holds.
  predicate PostsStale(s: Sys, w: nat) {
    && w < |s.workers| && s.workers[w].Inside? && s.conn.Some?
    && s.workers[w].conn.refresh != s.conn.value.refresh
    && forall i :: 0 <= i < |s.workers| && i != w ==> !InSection(s.workers[i])
  }

  // ---------------------------------------------------------------------------
  // The bound on lateness is exact
  // ---------------------------------------------------------------------------

  // How far past its expiry the last returned token was.
  function LastLateness(s: Sys): real {
    if s.returned == [] || s.returned[|s.returned| - 1].token.expires.None? then 0.0
    else s.returned[|s.returned| - 1].at - s.returned[|s.returned| - 1].token.expires.value
  }

  // Worker 0 alone reads a token that expires at 100.
  lemma ReadOnce(t: Timing, readAt: real, row: Conn) returns (r: seq<Step>)
    requires 0.0 <= readAt < 40.0 && row.token.expires == Some(100.0)
    ensures Exec(1, r, true, t) == Sys(readAt, None, Some(row), None, [Filling(row.token, readAt, false)], [])
  {
    r := Extend(1, [], Connect(row), t);
    r := Extend(1, r, Tick(readAt), t);
    r := Extend(1, r, Begin(0), t);
    r := Extend(1, r, LookInCache(0), t);
    r := Extend(1, r, LookInTable(0), t);
  }

  // Worker 0 alone refreshes an expired row; the new token expires as early as it may.
  lemma RefreshOnce(t: Timing) returns (r: seq<Step>)
    ensures var s := Exec(1, r, true, t);
            && s.clock == 0.0 && s.cache.None?
            && s.workers == [Filling(Token(1, Some(LeastLife(t) as real)), 0.0, true)]
  {
    r := Extend(1, [], Connect(Conn(Token(0, Some(0.0)), "r")), t);
    r := Extend(1, r, Begin(0), t);
    r := Extend(1, r, LookInCache(0), t);
    r := Extend(1, r, LookInTable(0), t);
    r := Extend(1, r, TryLock(0), t);
    r := Extend(1, r, Receive(0, Some(Reply(1, None, Some(LeastLife(t))))), t);
    r := Extend(1, r, Update(0), t);
    r := Extend(1, r, Release(0), t);
  }

  // A token filled as late as it may be is returned from the cache as late as it may be.
  lemma FillAndReturn(t: Timing, before: seq<Step>, gap: real) returns (r: seq<Step>)
    requires t.delay >= 0.0 && 0.0 < gap < CACHE_TTL
    requires var s := Exec(1, before, true, t);
             |s.workers| == 1 && s.workers[0].Filling? && s.clock == s.workers[0].readAt
    ensures var s0, s := Exec(1, before, true, t), Exec(1, r, true, t);
            && s.conn == s0.conn && s.returned != []
            && s.returned[|s.returned| - 1] == Return(s0.workers[0].token, s0.clock + t.delay + CACHE_TTL - gap)
  {
    var at := Exec(1, before, true, t).clock + t.delay;
    r := Extend(1, before, Tick(at), t);
    r := Extend(1, r, Fill(0), t);
    r := Extend(1, r, Tick(at + CACHE_TTL - gap), t);
    r := Extend(1, r, Begin(0), t);
    r := Extend(1, r, LookInCache(0), t);
  }

  // The bound on lateness is approached as closely as one likes.
  lemma LatenessApproached(t: Timing, gap: real)
    requires t.delay >= 0.0 && 0.0 < gap < 40.0
    ensures exists steps :: LastLateness(Exec(1, steps, true, t)) == Lateness(t) + t.delay - gap
  {
    var r;
    if LeastLife(t) <= 60 {
      r := RefreshOnce(t);
      r := FillAndReturn(t, r, gap);
    } else {
      r := ReadOnce(t, 40.0 - gap / 2.0, Conn(Token(0, Some(100.0)), "r"));
      r := FillAndReturn(t, r, gap / 2.0);
    }
    assert LastLateness(Exec(1, r, true, t)) == Lateness(t) + t.delay - gap;
  }

  // ---------------------------------------------------------------------------
  // After a disconnect
  // ---------------------------------------------------------------------------

  predicate RefreshedIn(steps: seq<Step>, token: Token) {
    exists step :: step in steps && step.Receive? && step.reply.Some? && step.reply.value.id == token.id
  }

  // The token was in hand at time `removed`, or comes from a refresh since then.
  predicate WorkerDrains(w: Worker, removed: real, after: seq<Step>) {
    match w
    case Writing(row, _, at) => at <= removed || RefreshedIn(after, row.token)
    case Releasing(result, _, at) => at <= removed || result.None? || RefreshedIn(after, result.value)
    case Filling(token, at, _) => at <= removed || RefreshedIn(after, token)
    case _ => true
  }

  predicate ReturnDrains(r: Return, end: real, after: seq<Step>) {
    r.at < end || RefreshedIn(after, r.token)
  }

  ghost predicate Drains(s: Sys, removed: real, end: real, after: seq<Step>) {
    && s.conn.None? && s.clock >= removed
    && (forall i :: 0 <= i < |s.workers| ==> WorkerDrains(s.workers[i], removed, after))
    && (s.cache.Some? ==> s.cache.value.deadline <= end || RefreshedIn(after, s.cache.value.token))
    && (forall i :: 0 <= i < |s.returned| ==> ReturnDrains(s.returned[i], end, after))
  }

  lemma DrainsGrows(s: Sys, removed: real, end: real, after: seq<Step>, step: Step)
    requires Drains(s, removed, end, after)
    ensures Drains(s, removed, end, after + [step])
  {
    forall token | RefreshedIn(after, token) ensures RefreshedIn(after + [step], token) {
      var x :| x in after && x.Receive? && x.reply.Some? && x.reply.value.id == token.id;
      assert x in after + [step];
    }
    forall i | 0 <= i < |s.workers| ensures WorkerDrains(s.workers[i], removed, after + [step]) {
      assert WorkerDrains(s.workers[i], removed, after);
    }
    forall i | 0 <= i < |s.returned| ensures ReturnDrains(s.returned[i], end, after + [step]) {
      assert ReturnDrains(s.returned[i], end, after);
    }
  }

  lemma StepDrains(s: Sys, step: Step, u: bool, t: Timing, removed: real, after: seq<Step>)
    requires Drains(s, removed, removed + t.delay + CACHE_TTL, after) && Fresh(s, t) && t.delay >= 0.0
    requires Enabled(s, step, u, t) && !step.Connect? && step in after
    ensures Drains(Next(s, step, u, t), removed, removed + t.delay + CACHE_TTL, after)
  {
    var s', end := Next(s, step, u, t), removed + t.delay + CACHE_TTL;
    forall i | 0 <= i < |s'.workers| ensures WorkerDrains(s'.workers[i], removed, after) {
      assert WorkerDrains(s.workers[i], removed, after);
    }
    if step.Fill? {
      assert WorkerFresh(s.workers[step.w], s.clock, t) && WorkerDrains(s.workers[step.w], removed, after);
    }
    forall i | 0 <= i < |s'.returned| ensures ReturnDrains(s'.returned[i], end, after) {
      assert i < |s.returned| ==> ReturnDrains(s.returned[i], end, after);
    }
  }

  // Once the row is removed and until the user connects again, a token in hand or cached
  // then is returned only before the cache life and the delay have passed, whether or not
  // the cached token is deleted; only a refresh under way can bring in another.
  lemma {:induction false} RemovedTokensDrain(k: nat, before: seq<Step>, after: seq<Step>, u: bool, t: Timing)
    requires t.delay >= 0.0 && forall step :: step in after ==> !step.Connect?
    ensures var removed := Exec(k, before, u, t).clock;
            Drains(Exec(k, before + [Disconnect] + after, u, t), removed, removed + t.delay + CACHE_TTL, after)
  {
    var first := before + [Disconnect];
    var removed := Exec(k, before, u, t).clock;
    if after == [] {
      RunFresh(k, before, u, t);
      assert first + after == first && first[..|before|] == before;
      var s := Exec(k, before, u, t);
      forall i | 0 <= i < |s.workers| ensures WorkerDrains(s.workers[i], removed, after) {
        assert WorkerFresh(s.workers[i], s.clock, t);
      }
      RunReturnedBefore(k, before, u, t);
    } else {
      var front, last := after[..|after| - 1], after[|after| - 1];
      assert after == front + [last];
      RemovedTokensDrain(k, before, front, u, t);
      RunFresh(k, first + front, u, t);
      var s := Exec(k, first + front, u, t);
      DrainsGrows(s, removed, removed + t.delay + CACHE_TTL, front, last);
      if Enabled(s, last, u, t) { StepDrains(s, last, u, t, removed, after); }
      assert (first + after)[..|first + after| - 1] == first + front;
    }
  }

  predicate ReturnedBefore(s: Sys) { forall i :: 0 <= i < |s.returned| ==> s.returned[i].at <= s.clock }

  lemma StepReturnedBefore(s: Sys, step: Step, u: bool, t: Timing)
    requires ReturnedBefore(s) && Enabled(s, step, u, t)
    ensures ReturnedBefore(Next(s, step, u, t))
  {
    var s' := Next(s, step, u, t);
    forall i | 0 <= i < |s'.returned| ensures s'.returned[i].at <= s'.clock {
      if i < |s.returned| { assert s'.returned[i] == s.returned[i]; }
    }
  }

  lemma {:induction false} RunReturnedBefore(k: nat, steps: seq<Step>, u: bool, t: Timing)
    ensures ReturnedBefore(Exec(k, steps, u, t))
  {
    if steps != [] {
      var front, last := steps[..|steps| - 1], steps[|steps| - 1];
      RunReturnedBefore(k, front, u, t);
      if Enabled(Exec(k, front, u, t), last, u, t) { StepReturnedBefore(Exec(k, front, u, t), last, u, t); }
    }
  }

  // Without a refresh, no token at all is returned from then on.
  lemma RemovedTokenBounded(k: nat, before: seq<Step>, after: seq<Step>, u: bool, t: Timing)
    requires t.delay >= 0.0 && forall step :: step in after ==> !step.Connect?
    ensures var removed := Exec(k, before, u, t).clock;
            var s := Exec(k, before + [Disconnect] + after, u, t);
            forall i :: 0 <= i < |s.returned| && s.returned[i].at >= removed + t.delay + CACHE_TTL ==>
              RefreshedIn(after, s.returned[i].token)
  {
    RemovedTokensDrain(k, before, after, u, t);
    var removed := Exec(k, before, u, t).clock;
    var s := Exec(k, before + [Disconnect] + after, u, t);
    forall i | 0 <= i < |s.returned| && s.returned[i].at >= removed + t.delay + CACHE_TTL
      ensures RefreshedIn(after, s.returned[i].token)
    {
      assert ReturnDrains(s.returned[i], removed + t.delay + CACHE_TTL, after);
    }
  }

  // When the last token was returned, if the row is gone by then.
  function LastWithoutRow(s: Sys): real {
    if s.conn.Some? || s.returned == [] then 0.0 else s.returned[|s.returned| - 1].at
  }

  // The bound is approached: a worker that has read the row puts its token back into the
  // cache after both were deleted.
  lemma RemovedTokenLingers(t: Timing, gap: real)
    requires t.delay >= 0.0 && 0.0 < gap < CACHE_TTL
    ensures exists steps :: LastWithoutRow(Exec(1, steps, true, t)) == t.delay + CACHE_TTL - gap
  {
    var r := ReadOnce(t, 0.0, Conn(Token(0, Some(100.0)), "r"));
    r := Extend(1, r, Disconnect, t);
    r := Extend(1, r, Invalidate, t);
    r := FillAndReturn(t, r, gap);
    assert LastWithoutRow(Exec(1, r, true, t)) == t.delay + CACHE_TTL - gap;
  }

  // ---------------------------------------------------------------------------
  // What each step gives its caller
  // ---------------------------------------------------------------------------

  // The token has no expiry, or one more than 60 seconds ahead.
  predicate Good(token: Token, now: real) {
    token.expires.None? || token.expires.value > now + 60.0
  }

  // Reading the row: a good token is taken; of another, the row goes on to the lock where it
  // can be refreshed; otherwise the call gives up.
  lemma ReadTakes(s: Sys, w: nat, u: bool, t: Timing)
    requires Enabled(s, LookInTable(w), u, t)
    ensures Next(s, LookInTable(w), u, t).workers[w] ==
              if s.conn.None? then Idle
              else if Good(s.conn.value.token, s.clock) then Filling(s.conn.value.token, s.clock, false)
              else if u && s.conn.value.refresh != "" then WantLock(s.conn.value)
              else Idle
  {
  }

  // Finding the lock taken, the worker sleeps 2 seconds and then takes the token of the row
  // only if it is good. Finding it free, it holds it for 30 seconds.
  lemma WaitTakes(s: Sys, w: nat, u: bool, t: Timing)
    ensures Enabled(s, Wake(w), u, t) ==>
              Next(s, Wake(w), u, t).workers[w] ==
                if s.conn.Some? && Good(s.conn.value.token, s.clock) then Filling(s.conn.value.token, s.clock, false)
                else Idle
    ensures Enabled(s, TryLock(w), u, t) ==>
              var s' := Next(s, TryLock(w), u, t);
              if s.lock.None? || s.clock >= s.lock.value.deadline
              then s'.workers[w] == Inside(s.workers[w].conn, s.clock) && s'.lock == Some(Lock(w, s.clock + 30.0))
              else s'.workers[w] == Asleep(s.clock + 2.0) && s'.lock == s.lock
  {
  }

  // A refresh records the new token, which expires after the time given, and not at all if
  // none or 0 was given; the refresh token stays unless a new one, not empty, came with it.
  lemma ReplyRecorded(s: Sys, w: nat, reply: Reply, u: bool, t: Timing)
    requires Enabled(s, Receive(w, Some(reply)), u, t)
    ensures var token := Token(reply.id, match reply.expiresIn
                                         case None => None
                                         case Some(n) => if n == 0 then None else Some(s.clock + n as real));
            var refresh := match reply.refresh
                           case None => s.workers[w].conn.refresh
                           case Some(r) => if r == "" then s.workers[w].conn.refresh else r;
            Next(s, Receive(w, Some(reply)), u, t).workers[w] ==
              Writing(Conn(token, refresh), s.workers[w].since, s.clock)
  {
  }

  // Writing updates the row if there is one, and the worker goes on with the token either way.
  lemma UpdateWrites(s: Sys, w: nat, u: bool, t: Timing)
    requires Enabled(s, Update(w), u, t)
    ensures var s' := Next(s, Update(w), u, t);
            && s'.conn == (if s.conn.Some? then Some(s.workers[w].row) else None)
            && s'.workers[w].Releasing? && s'.workers[w].result == Some(s.workers[w].row.token)
  {
  }

  // A live cached token is returned at once.
  lemma CacheTakes(s: Sys, w: nat, u: bool, t: Timing)
    requires Enabled(s, LookInCache(w), u, t)
    ensures var s' := Next(s, LookInCache(w), u, t);
            if s.cache.Some? && s.clock < s.cache.value.deadline
            then s'.workers[w] == Idle && s'.returned == s.returned + [Return(s.cache.value.token, s.clock)]
            else s'.workers[w] == ReadConn && s'.returned == s.returned
  {
  }

  predicate IsStepOf(step: Step, w: nat) {
    match step
    case Begin(v) => v == w
    case LookInCache(v) => v == w
    case LookInTable(v) => v == w
    case TryLock(v) => v == w
    case Wake(v) => v == w
    case Receive(v, _) => v == w
    case Update(v) => v == w
    case Release(v) => v == w
    case Fill(v) => v == w
    case _ => false
  }

  lemma StepUntouched(s: Sys, step: Step, u: bool, t: Timing, w: nat)
    requires Enabled(s, step, u, t) && !IsStepOf(step, w) && w < |s.workers|
    ensures |Next(s, step, u, t).workers| == |s.workers| && Next(s, step, u, t).workers[w] == s.workers[w]
  {
  }

  lemma {:induction false} WorkerUntouched(k: nat, before: seq<Step>, after: seq<Step>, u: bool, t: Timing, w: nat)
    requires w < |Exec(k, before, u, t).workers| && forall step :: step in after ==> !IsStepOf(step, w)
    ensures w < |Exec(k, before + after, u, t).workers|
    ensures Exec(k, before + after, u, t).workers[w] == Exec(k, before, u, t).workers[w]
  {
    if after == [] {
      assert before + after == before;
    } else {
      var front, last := after[..|after| - 1], after[|after| - 1];
      assert after == front + [last];
      WorkerUntouched(k, before, front, u, t, w);
      var s := Exec(k, before + front, u, t);
      if Enabled(s, last, u, t) { StepUntouched(s, last, u, t, w); }
      assert (before + after)[..|before + after| - 1] == before + front;
    }
  }

  // Over every run: a worker that meets a good token in the row returns that token, whatever
  // the others do meanwhile, and caches it for 300 seconds.
  lemma GoodTokenReturned(k: nat, before: seq<Step>, read: Step, after: seq<Step>, u: bool, t: Timing, w: nat)
    requires read == LookInTable(w) || read == Wake(w)
    requires var s := Exec(k, before, u, t);
             Enabled(s, read, u, t) && s.conn.Some? && Good(s.conn.value.token, s.clock)
    requires forall step :: step in after ==> !IsStepOf(step, w)
    ensures var token := Exec(k, before, u, t).conn.value.token;
            var s := Exec(k, before + [read] + after, u, t);
            && Enabled(s, Fill(w), u, t)
            && Next(s, Fill(w), u, t).returned == s.returned + [Return(token, s.clock)]
            && Next(s, Fill(w), u, t).cache == Some(Cached(token, s.clock + 300.0))
  {
    assert (before + [read])[..|before|] == before;
    ReadOrWake(Exec(k, before, u, t), read, u, t, w);
    WorkerUntouched(k, before + [read], after, u, t, w);
  }

  lemma ReadOrWake(s: Sys, read: Step, u: bool, t: Timing, w: nat)
    requires (read == LookInTable(w) || read == Wake(w)) && Enabled(s, read, u, t)
    requires s.conn.Some? && Good(s.conn.value.token, s.clock)
    ensures Next(s, read, u, t).workers[w] == Filling(s.conn.value.token, s.clock, false)
  {
    if read == Wake(w) { WaitTakes(s, w, u, t); } else { ReadTakes(s, w, u, t); }
  }

  // A refreshed token is returned as well, once the lock is given back.
  lemma RefreshedTokenReturned(s: Sys, w: nat, u: bool, t: Timing)
    requires Enabled(s, Release(w), u, t) && s.workers[w].result.Some?
    ensures var s' := Next(s, Release(w), u, t);
            && s'.lock.None? && Enabled(s', Fill(w), u, t)
            && Next(s', Fill(w), u, t).returned == s.returned + [Return(s.workers[w].result.value, s.clock)]
  {
  }
}
