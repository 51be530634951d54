// services/rate_limiter.py, layer 2: chat turns of one user, counted in a sliding hour
// and in calendar buckets.
module ChatLimiter {
  import opened Prelude
  import opened Windows
  import opened RateLimiter

  const DAY := 86400

  datatype ChatLimits = ChatLimits(requestsHour: nat, requestsDay: nat, tokensHour: nat, tokensDay: nat)

  function LimitsOfTier(tier: string): (l: ChatLimits)
    ensures l.requestsHour >= 1 && l.requestsDay >= 1 && l.tokensHour >= 1 && l.tokensDay >= 1
  {
    if tier == "pro" then ChatLimits(30, 100, 5000000, 5000000)
    else ChatLimits(10, 30, 500000, 1000000)
  }

  // ---------------------------------------------------------------------------
  // The calendar, in UTC seconds since the epoch
  // ---------------------------------------------------------------------------

  datatype Span = OneHour | OneDay

  function Size(s: Span): int { if s.OneHour? then 3600 else DAY }

  // The bucket a time falls into: what the key suffix spells out.
  function Bucket(s: Span, t: real): int { t.Floor / Size(s) }

  function BucketStart(s: Span, b: int): real { (b * Size(s)) as real }

  function HourOf(t: real): int { t.Floor / 3600 % 24 }
  function MinuteOf(t: real): int { t.Floor / 60 % 60 }
  function SecondOf(t: real): int { t.Floor % 60 }

  function UntilNext(s: Span, t: real): int {
    if s.OneHour? then 3600 - MinuteOf(t) * 60 - SecondOf(t)
    else 86400 - HourOf(t) * 3600 - MinuteOf(t) * 60 - SecondOf(t)
  }

  lemma BucketBounds(s: Span, t: real)
    ensures BucketStart(s, Bucket(s, t)) <= t < BucketStart(s, Bucket(s, t) + 1)
  {
    var f := t.Floor;
    assert f as real <= t < (f + 1) as real;
  }

  lemma BucketMonotone(s: Span, a: real, b: real)
    requires a <= b
    ensures Bucket(s, a) <= Bucket(s, b)
  {
    assert a.Floor <= b.Floor;
  }

  lemma MinutesAndSeconds(f: int)
    ensures (f / 60 % 60) * 60 + f % 60 == f % 3600
  {
    var m := f / 60;
    assert f == 60 * m + f % 60 && m == 60 * (m / 60) + m % 60;
  }

  lemma HoursMinutesSeconds(f: int)
    ensures (f / 3600 % 24) * 3600 + (f / 60 % 60) * 60 + f % 60 == f % 86400
  {
    MinutesAndSeconds(f);
    var h := f / 3600;
    assert f == 3600 * h + f % 3600 && h == 24 * (h / 24) + h % 24;
  }

  lemma UntilNextIsRest(s: Span, t: real)
    ensures UntilNext(s, t) == Size(s) - t.Floor % Size(s)
  {
    MinutesAndSeconds(t.Floor);
    HoursMinutesSeconds(t.Floor);
  }

  // Waiting the reported seconds leads into the very next bucket, at its first second.
  lemma UntilNextReachesNextBucket(s: Span, t: real)
    ensures 1 <= UntilNext(s, t) <= Size(s)
    ensures Bucket(s, t + UntilNext(s, t) as real) == Bucket(s, t) + 1
    ensures BucketStart(s, Bucket(s, t) + 1) <= t + UntilNext(s, t) as real
                                            < BucketStart(s, Bucket(s, t) + 1) + 1.0
  {
    UntilNextIsRest(s, t);
    var f, n := t.Floor, UntilNext(s, t);
    var next := (f / Size(s) + 1) * Size(s);
    assert f + n == next;
    assert (t + n as real).Floor == next;
  }

  // ---------------------------------------------------------------------------
  // What the log of completed turns says
  // ---------------------------------------------------------------------------

  datatype Turn = Turn(at: real, tokens: nat)

  function Times(log: seq<Turn>): seq<real> {
    if log == [] then [] else Times(log[..|log| - 1]) + [log[|log| - 1].at]
  }

  // Times of the turns of one day.
  function DayTimes(log: seq<Turn>, day: int): seq<real> {
    if log == [] then []
    else if Bucket(OneDay, log[|log| - 1].at) == day
      then DayTimes(log[..|log| - 1], day) + [log[|log| - 1].at]
      else DayTimes(log[..|log| - 1], day)
  }

  // Tokens of the turns of one bucket.
  function Tokens(log: seq<Turn>, s: Span, b: int): nat {
    if log == [] then 0
    else Tokens(log[..|log| - 1], s, b) +
         if Bucket(s, log[|log| - 1].at) == b then log[|log| - 1].tokens else 0
  }

  datatype Reason = RequestsHour | RequestsDay | TokensHour | TokensDay

  datatype ChatResult = ChatResult(denied: Option<Reason>, requestsHour: nat, requestsDay: nat,
                                   tokensHour: nat, tokensDay: nat, retryAfter: Option<int>)

  // The first limit reached, in priority order.
  function FirstDenial(rh: nat, rd: nat, th: nat, td: nat, l: ChatLimits): Option<Reason> {
    if rh >= l.requestsHour then Some(RequestsHour)
    else if rd >= l.requestsDay then Some(RequestsDay)
    else if th >= l.tokensHour then Some(TokensHour)
    else if td >= l.tokensDay then Some(TokensDay)
    else None
  }

  function ChatDecide(log: seq<Turn>, now: real, l: ChatLimits): ChatResult {
    var rh := CountAt(Times(log), now, HOUR);
    var rd := |DayTimes(log, Bucket(OneDay, now))|;
    var th, td := Tokens(log, OneHour, Bucket(OneHour, now)), Tokens(log, OneDay, Bucket(OneDay, now));
    var denied := FirstDenial(rh, rd, th, td, l);
    ChatResult(denied, rh, rd, th, td,
      match denied
      case None => None
      case Some(RequestsHour) => Some(Max(RetryAfter(Times(log), now, HOUR), 1))
      case Some(RequestsDay) => Some(UntilNext(OneDay, now))
      case Some(TokensHour) => Some(UntilNext(OneHour, now))
      case Some(TokensDay) => Some(UntilNext(OneDay, now)))
  }

  // The positions of the turns of the day `now` belongs to.
  function TodayAt(log: seq<Turn>, now: real): set<int> {
    set i | 0 <= i < |log| && log[i].at.Floor / 86400 == now.Floor / 86400
  }

  // The positions of the turns later than 3600 seconds ago.
  function HourAt(log: seq<Turn>, now: real): set<int> {
    set i | 0 <= i < |log| && log[i].at > now - 3600.0
  }

  lemma {:induction false} TodayCounts(log: seq<Turn>, now: real)
    ensures |DayTimes(log, Bucket(OneDay, now))| == |TodayAt(log, now)|
  {
    if log != [] {
      var n := |log| - 1;
      TodayCounts(log[..n], now);
      assert TodayAt(log, now) ==
             TodayAt(log[..n], now) + if Bucket(OneDay, log[n].at) == Bucket(OneDay, now) then {n} else {};
    }
  }

  lemma {:induction false} TimesListed(log: seq<Turn>)
    ensures |Times(log)| == |log| && forall i :: 0 <= i < |log| ==> Times(log)[i] == log[i].at
  {
    if log != [] { TimesListed(log[..|log| - 1]); }
  }

  // The limits are asked in this order, and the first one reached denies.
  lemma ChatDecideMeans(log: seq<Turn>, now: real, l: ChatLimits)
    ensures var r := ChatDecide(log, now, l);
            var rh, rd := |HourAt(log, now)|, |TodayAt(log, now)|;
            var th, td := Tokens(log, OneHour, now.Floor / 3600), Tokens(log, OneDay, now.Floor / 86400);
            && (r.requestsHour, r.requestsDay, r.tokensHour, r.tokensDay) == (rh, rd, th, td)
            && (r.denied == Some(RequestsHour) <==> rh >= l.requestsHour)
            && (r.denied == Some(RequestsDay) <==> rh < l.requestsHour && rd >= l.requestsDay)
            && (r.denied == Some(TokensHour) <==> rh < l.requestsHour && rd < l.requestsDay && th >= l.tokensHour)
            && (r.denied == Some(TokensDay) <==>
                  rh < l.requestsHour && rd < l.requestsDay && th < l.tokensHour && td >= l.tokensDay)
            && (r.retryAfter.None? <==> r.denied.None?)
  {
    TodayCounts(log, now);
    TimesListed(log);
    AfterCounts(Times(log), now - HOUR);
    assert LaterAt(Times(log), now - HOUR) == HourAt(log, now);
  }

  // Tokens adds up the tokens of the turns whose hour, or day, is that one.
  lemma TokensAdds(log: seq<Turn>, turn: Turn, b: int)
    ensures Tokens([], OneHour, b) == 0 == Tokens([], OneDay, b)
    ensures Tokens(log + [turn], OneHour, b) ==
              Tokens(log, OneHour, b) + if turn.at.Floor / 3600 == b then turn.tokens else 0
    ensures Tokens(log + [turn], OneDay, b) ==
              Tokens(log, OneDay, b) + if turn.at.Floor / 86400 == b then turn.tokens else 0
  {
    assert (log + [turn])[..|log|] == log;
  }

  // ---------------------------------------------------------------------------
  // The store
  // ---------------------------------------------------------------------------

  datatype Counter = Counter(value: nat, expiresAt: real)

  function DayKey(keys: map<int, ZSet>, day: int): ZSet {
    if day in keys then keys[day] else ZSet([], 0.0)
  }

  function CounterAt(keys: map<int, Counter>, b: int): Counter {
    if b in keys then keys[b] else Counter(0, 0.0)
  }

  // GET: an expired key reads as 0.
  function Value(c: Counter, now: real): nat { if now < c.expiresAt then c.value else 0 }

  // Margin added to the time left in the bucket.
  function Grace(s: Span): int { if s.OneHour? then 60 else 300 }

  // A key of the current or a later bucket holds all of its bucket and outlives it.
  predicate DayOk(z: ZSet, log: seq<Turn>, day: int) {
    && z.scores == DayTimes(log, day)
    && (z.scores != [] ==> z.expiresAt >= BucketStart(OneDay, day + 1))
  }

  predicate CounterOk(c: Counter, log: seq<Turn>, s: Span, b: int) {
    && c.value == Tokens(log, s, b)
    && (c.value != 0 ==> c.expiresAt >= BucketStart(s, b + 1))
  }

  predicate DayHolds(keys: map<int, ZSet>, log: seq<Turn>, day: int) {
    DayOk(DayKey(keys, day), log, day)
  }

  predicate CounterHolds(keys: map<int, Counter>, log: seq<Turn>, s: Span, b: int) {
    CounterOk(CounterAt(keys, b), log, s, b)
  }

  ghost predicate DaysOk(keys: map<int, ZSet>, log: seq<Turn>, clock: real) {
    forall d :: d >= Bucket(OneDay, clock) ==> DayHolds(keys, log, d)
  }

  ghost predicate CountersOk(keys: map<int, Counter>, log: seq<Turn>, s: Span, clock: real) {
    forall b :: b >= Bucket(s, clock) ==> CounterHolds(keys, log, s, b)
  }

  predicate LogUpTo(log: seq<Turn>, t: real) {
    forall i :: 0 <= i < |log| ==> log[i].at <= t
  }

  lemma {:induction false} DayTimesMember(log: seq<Turn>, day: int)
    ensures forall i :: 0 <= i < |DayTimes(log, day)| ==> Bucket(OneDay, DayTimes(log, day)[i]) == day
  {
    if log != [] { DayTimesMember(log[..|log| - 1], day); }
  }

  lemma {:induction false} NothingLater(log: seq<Turn>, t: real, s: Span, b: int)
    requires LogUpTo(log, t) && b > Bucket(s, t)
    ensures Tokens(log, s, b) == 0
    ensures s.OneDay? ==> DayTimes(log, b) == []
  {
    if log != [] {
      NothingLater(log[..|log| - 1], t, s, b);
      BucketMonotone(s, log[|log| - 1].at, t);
    }
  }

  // The daily prune removes no entry of its own day.
  lemma DailyPruneKeepsDay(log: seq<Turn>, now: real)
    ensures Prune(DayTimes(log, Bucket(OneDay, now)), now - DAY as real) == DayTimes(log, Bucket(OneDay, now))
  {
    var day := Bucket(OneDay, now);
    DayTimesMember(log, day);
    BucketBounds(OneDay, now);
    forall i | 0 <= i < |DayTimes(log, day)| ensures DayTimes(log, day)[i] > now - DAY as real {
      BucketBounds(OneDay, DayTimes(log, day)[i]);
    }
    PruneNone(DayTimes(log, day), now - DAY as real);
  }

  lemma LogSnoc(log: seq<Turn>, x: Turn)
    ensures Times(log + [x]) == Times(log) + [x.at]
    ensures forall d :: DayTimes(log + [x], d) ==
              if Bucket(OneDay, x.at) == d then DayTimes(log, d) + [x.at] else DayTimes(log, d)
    ensures forall s, b :: Tokens(log + [x], s, b) ==
              Tokens(log, s, b) + if Bucket(s, x.at) == b then x.tokens else 0
  {
    assert (log + [x])[..|log|] == log;
  }

  // ZREMRANGEBYSCORE on today's key.
  function PrunedDay(keys: map<int, ZSet>, now: real): map<int, ZSet> {
    var z := DayKey(keys, Bucket(OneDay, now));
    keys[Bucket(OneDay, now) := ZSet(Prune(Live(z, now), now - DAY as real), z.expiresAt)]
  }

  // ZADD and EXPIRE on today's key.
  function WrittenDay(keys: map<int, ZSet>, now: real): map<int, ZSet> {
    var z := DayKey(keys, Bucket(OneDay, now));
    keys[Bucket(OneDay, now) := ZSet(Zadd(Live(z, now), now), now + (DAY + 300) as real)]
  }

  // INCRBY and EXPIRE on the key of the current bucket.
  function WrittenCounter(keys: map<int, Counter>, s: Span, now: real, tokens: nat): map<int, Counter> {
    keys[Bucket(s, now) := Counter(Value(CounterAt(keys, Bucket(s, now)), now) + tokens,
                                   now + (UntilNext(s, now) + Grace(s)) as real)]
  }

  // A key that is right is still live throughout its own day.
  lemma DayIsLive(z: ZSet, log: seq<Turn>, now: real)
    requires DayOk(z, log, Bucket(OneDay, now))
    ensures Live(z, now) == DayTimes(log, Bucket(OneDay, now))
  {
    BucketBounds(OneDay, now);
  }

  lemma {:induction false} DayTimesUpTo(log: seq<Turn>, day: int, t: real)
    requires LogUpTo(log, t)
    ensures AllUpTo(DayTimes(log, day), t)
  {
    if log != [] { DayTimesUpTo(log[..|log| - 1], day, t); }
  }

  lemma {:induction false} TimesUpTo(log: seq<Turn>, t: real)
    requires LogUpTo(log, t)
    ensures AllUpTo(Times(log), t) && |Times(log)| == |log|
  {
    if log != [] { TimesUpTo(log[..|log| - 1], t); }
  }

  lemma PrunedDayOk(keys: map<int, ZSet>, log: seq<Turn>, clock: real, now: real)
    requires DaysOk(keys, log, clock) && clock <= now
    ensures DaysOk(PrunedDay(keys, now), log, now)
    ensures DayKey(PrunedDay(keys, now), Bucket(OneDay, now)).scores == DayTimes(log, Bucket(OneDay, now))
  {
    var day := Bucket(OneDay, now);
    BucketMonotone(OneDay, clock, now);
    assert DayHolds(keys, log, day);
    DayIsLive(DayKey(keys, day), log, now);
    DailyPruneKeepsDay(log, now);
    var keys' := PrunedDay(keys, now);
    forall d | d >= day ensures DayHolds(keys', log, d) {
      assert DayHolds(keys, log, d);
    }
  }

  // A key written now outlives its own day.
  lemma WrittenKeyOk(z: ZSet, log: seq<Turn>, now: real)
    requires DayOk(z, log, Bucket(OneDay, now)) && LogUpTo(log, now)
    ensures ZSet(Zadd(Live(z, now), now), now + (DAY + 300) as real).scores
            == DayTimes(log, Bucket(OneDay, now)) + [now]
    ensures now + (DAY + 300) as real >= BucketStart(OneDay, Bucket(OneDay, now) + 1)
  {
    DayIsLive(z, log, now);
    DayTimesUpTo(log, Bucket(OneDay, now), now);
    ZaddLatest(DayTimes(log, Bucket(OneDay, now)), now);
    BucketBounds(OneDay, now);
  }

  lemma WrittenDayOk(keys: map<int, ZSet>, log: seq<Turn>, clock: real, turn: Turn)
    requires DaysOk(keys, log, clock) && LogUpTo(log, clock) && clock <= turn.at
    ensures DaysOk(WrittenDay(keys, turn.at), log + [turn], turn.at)
  {
    var now, day := turn.at, Bucket(OneDay, turn.at);
    BucketMonotone(OneDay, clock, now);
    LogSnoc(log, turn);
    assert DayHolds(keys, log, day);
    WrittenKeyOk(DayKey(keys, day), log, now);
    var keys' := WrittenDay(keys, now);
    forall d | d >= day ensures DayHolds(keys', log + [turn], d) {
      assert DayHolds(keys, log, d);
    }
  }

  // A counter written now outlives its own bucket.
  lemma WrittenCounterOk(keys: map<int, Counter>, log: seq<Turn>, s: Span, clock: real, turn: Turn)
    requires CountersOk(keys, log, s, clock) && clock <= turn.at
    ensures CountersOk(WrittenCounter(keys, s, turn.at, turn.tokens), log + [turn], s, turn.at)
  {
    var now, b := turn.at, Bucket(s, turn.at);
    LogSnoc(log, turn);
    BucketMonotone(s, clock, now);
    BucketBounds(s, now);
    UntilNextReachesNextBucket(s, now);
    var keys' := WrittenCounter(keys, s, now, turn.tokens);
    forall c | c >= b ensures CounterHolds(keys', log + [turn], s, c) {
      assert CounterHolds(keys, log, s, c);
    }
  }

  lemma CounterReads(keys: map<int, Counter>, log: seq<Turn>, s: Span, now: real)
    requires CountersOk(keys, log, s, now)
    ensures Value(CounterAt(keys, Bucket(s, now)), now) == Tokens(log, s, Bucket(s, now))
  {
    BucketBounds(s, now);
    assert CounterHolds(keys, log, s, Bucket(s, now));
  }

  lemma CountersLater(keys: map<int, Counter>, log: seq<Turn>, s: Span, clock: real, now: real)
    requires CountersOk(keys, log, s, clock) && clock <= now
    ensures CountersOk(keys, log, s, now)
  {
    BucketMonotone(s, clock, now);
  }

  lemma HourStep(z: ZSet, log: seq<Turn>, clock: real, now: real)
    requires Tracks(z, Times(log), clock, Hour) && clock <= now
    ensures Tracks(ZSet(Prune(Live(z, now), now - HOUR), z.expiresAt), Times(log), now, Hour)
    ensures Prune(Live(z, now), now - HOUR) == Prune(Times(log), now - HOUR)
  {
    LiveAgrees(z, Times(log), clock, Hour, now);
    PruneKeepsTracking(ZSet(Live(z, now), z.expiresAt), Times(log), now, Hour);
  }

  lemma {:induction false} HourWritten(z: ZSet, log: seq<Turn>, clock: real, turn: Turn)
    requires Tracks(z, Times(log), clock, Hour) && clock <= turn.at
    ensures Tracks(ZSet(Zadd(Live(z, turn.at), turn.at), turn.at + KeyLife(Hour)), Times(log + [turn]), turn.at, Hour)
  {
    LiveAgrees(z, Times(log), clock, Hour, turn.at);
    AddKeepsTracking(ZSet(Live(z, turn.at), z.expiresAt), Times(log), Hour, turn.at);
    LogSnoc(log, turn);
  }

  // The keys show all that the log can still count.
  ghost predicate RequestsHold(reqHour: ZSet, reqDay: map<int, ZSet>, log: seq<Turn>, clock: real) {
    Tracks(reqHour, Times(log), clock, Hour) && DaysOk(reqDay, log, clock)
  }

  ghost predicate TokensHold(tokHour: map<int, Counter>, tokDay: map<int, Counter>, log: seq<Turn>, clock: real) {
    CountersOk(tokHour, log, OneHour, clock) && CountersOk(tokDay, log, OneDay, clock)
  }

  lemma RequestsWritten(reqHour: ZSet, reqDay: map<int, ZSet>, log: seq<Turn>, clock: real, turn: Turn)
    requires RequestsHold(reqHour, reqDay, log, clock) && LogUpTo(log, clock) && clock <= turn.at
    ensures RequestsHold(ZSet(Zadd(Live(reqHour, turn.at), turn.at), turn.at + KeyLife(Hour)),
                         WrittenDay(reqDay, turn.at), log + [turn], turn.at)
  {
    HourWritten(reqHour, log, clock, turn);
    WrittenDayOk(reqDay, log, clock, turn);
  }

  lemma TokensWritten(tokHour: map<int, Counter>, tokDay: map<int, Counter>, log: seq<Turn>, clock: real, turn: Turn)
    requires TokensHold(tokHour, tokDay, log, clock) && clock <= turn.at
    ensures TokensHold(WrittenCounter(tokHour, OneHour, turn.at, turn.tokens),
                       WrittenCounter(tokDay, OneDay, turn.at, turn.tokens), log + [turn], turn.at)
  {
    WrittenCounterOk(tokHour, log, OneHour, clock, turn);
    WrittenCounterOk(tokDay, log, OneDay, clock, turn);
  }

  class Limiter {
    var reqHour: ZSet
    var reqDay: map<int, ZSet>
    var tokHour: map<int, Counter>
    var tokDay: map<int, Counter>
    ghost var log: seq<Turn>
    ghost var clock: real

    ghost predicate Valid()
      reads this
    {
      && LogUpTo(log, clock)
      && RequestsHold(reqHour, reqDay, log, clock)
      && TokensHold(tokHour, tokDay, log, clock)
    }

    constructor ()
      ensures Valid() && log == [] && clock == 0.0
    {
      reqHour := ZSet([], 0.0);
      reqDay, tokHour, tokDay := map[], map[], map[];
      log := [];
      clock := 0.0;
    }

    // The sliding hour: prune and count.
    method CountHour(now: real) returns (hour: nat)
      requires Valid() && clock <= now
      modifies this`reqHour, this`clock
      ensures Valid() && clock == now
      ensures hour == CountAt(Times(log), now, HOUR)
      ensures reqHour.scores == Prune(Times(log), now - HOUR)
    {
      HourStep(reqHour, log, clock, now);
      BucketMonotone(OneDay, clock, now);
      CountersLater(tokHour, log, OneHour, clock, now);
      CountersLater(tokDay, log, OneDay, clock, now);
      reqHour := ZSet(Prune(Live(reqHour, now), now - HOUR), reqHour.expiresAt);
      hour := |reqHour.scores|;
      clock := now;
    }

    // Today's key: prune and count.
    method CountDay(now: real) returns (day: nat)
      requires Valid() && clock == now
      modifies this`reqDay
      ensures Valid() && day == |DayTimes(log, Bucket(OneDay, now))|
    {
      PrunedDayOk(reqDay, log, now, now);
      reqDay := PrunedDay(reqDay, now);
      day := |DayKey(reqDay, Bucket(OneDay, now)).scores|;
    }

    method CountTokens(now: real) returns (hour: nat, day: nat)
      requires Valid() && clock == now
      ensures hour == Tokens(log, OneHour, Bucket(OneHour, now))
      ensures day == Tokens(log, OneDay, Bucket(OneDay, now))
    {
      CounterReads(tokHour, log, OneHour, now);
      CounterReads(tokDay, log, OneDay, now);
      hour := Value(CounterAt(tokHour, Bucket(OneHour, now)), now);
      day := Value(CounterAt(tokDay, Bucket(OneDay, now)), now);
    }

    // The decision read off the store equals that of the log of completed turns.
    method CheckChatRate(tier: string, now: real) returns (r: ChatResult)
      requires Valid() && clock <= now
      modifies this`reqHour, this`reqDay, this`clock
      ensures Valid() && clock == now
      ensures r == ChatDecide(log, now, LimitsOfTier(tier))
    {
      r := CheckLimits(LimitsOfTier(tier), now);
    }

    method CheckLimits(l: ChatLimits, now: real) returns (r: ChatResult)
      requires Valid() && clock <= now
      modifies this`reqHour, this`reqDay, this`clock
      ensures Valid() && clock == now
      ensures r == ChatDecide(log, now, l)
    {
      var rh := CountHour(now);
      var rd := CountDay(now);
      var th, td := CountTokens(now);
      if rh >= l.requestsHour {
        var retry := if reqHour.scores != [] then Trunc(HOUR - (now - reqHour.scores[0])) + 1 else Trunc(HOUR);
        return ChatResult(Some(RequestsHour), rh, rd, th, td, Some(Max(retry, 1)));
      }
      if rd >= l.requestsDay {
        return ChatResult(Some(RequestsDay), rh, rd, th, td, Some(UntilNext(OneDay, now)));
      }
      if th >= l.tokensHour {
        return ChatResult(Some(TokensHour), rh, rd, th, td, Some(UntilNext(OneHour, now)));
      }
      if td >= l.tokensDay {
        return ChatResult(Some(TokensDay), rh, rd, th, td, Some(UntilNext(OneDay, now)));
      }
      r := ChatResult(None, rh, rd, th, td, None);
    }

    // Both request sets and both token counters, with their expiry times.
    method LogTokenUsage(now: real, tokens: nat)
      requires Valid() && clock <= now
      modifies this
      ensures Valid() && clock == now && log == old(log) + [Turn(now, tokens)]
    {
      var turn := Turn(now, tokens);
      RequestsWritten(reqHour, reqDay, log, clock, turn);
      TokensWritten(tokHour, tokDay, log, clock, turn);
      reqHour := ZSet(Zadd(Live(reqHour, now), now), now + KeyLife(Hour));
      reqDay := WrittenDay(reqDay, now);
      tokHour := WrittenCounter(tokHour, OneHour, now, tokens);
      tokDay := WrittenCounter(tokDay, OneDay, now, tokens);
      log := log + [turn];
      clock := now;
    }
  }

  // ---------------------------------------------------------------------------
  // Serial turns
  // ---------------------------------------------------------------------------

  // A turn asks at `asked`; if admitted it completes, and is logged, at `done`.
  datatype Attempt = Attempt(asked: real, done: real, tokens: nat)

  predicate InOrder(turns: seq<Attempt>) {
    && (forall i :: 0 <= i < |turns| ==> turns[i].asked <= turns[i].done)
    && (forall i, j :: 0 <= i < j < |turns| ==> turns[i].done <= turns[j].asked)
  }

  function RunChat(turns: seq<Attempt>, l: ChatLimits): seq<Turn> {
    if turns == [] then []
    else
      var log, t := RunChat(turns[..|turns| - 1], l), turns[|turns| - 1];
      if ChatDecide(log, t.asked, l).denied.None? then log + [Turn(t.done, t.tokens)] else log
  }

  // The answers given to the turns, in order.
  function ChatDecisions(turns: seq<Attempt>, l: ChatLimits): seq<ChatResult> {
    if turns == [] then []
    else
      var front, last := turns[..|turns| - 1], turns[|turns| - 1];
      ChatDecisions(front, l) + [ChatDecide(RunChat(front, l), last.asked, l)]
  }

  // Every run on the store, which prunes, expires and counts in buckets, gives these answers
  // and this log.
  method RunTurns(tier: string, turns: seq<Attempt>) returns (lim: Limiter, results: seq<ChatResult>)
    requires InOrder(turns) && (turns != [] ==> turns[0].asked >= 0.0)
    ensures fresh(lim) && lim.Valid()
    ensures lim.log == RunChat(turns, LimitsOfTier(tier))
    ensures results == ChatDecisions(turns, LimitsOfTier(tier))
  {
    lim := new Limiter();
    results := [];
    for i := 0 to |turns|
      invariant fresh(lim) && lim.Valid()
      invariant lim.log == RunChat(turns[..i], LimitsOfTier(tier))
      invariant results == ChatDecisions(turns[..i], LimitsOfTier(tier))
      invariant i < |turns| ==> lim.clock <= turns[i].asked
    {
      assert turns[..i + 1][..i] == turns[..i];
      var r := lim.CheckChatRate(tier, turns[i].asked);
      results := results + [r];
      if r.denied.None? { lim.LogTokenUsage(turns[i].done, turns[i].tokens); }
    }
    assert turns[..|turns|] == turns;
  }

  lemma {:induction false} RunChatUpTo(turns: seq<Attempt>, l: ChatLimits, t: real)
    requires InOrder(turns) && (turns != [] ==> turns[|turns| - 1].done <= t)
    ensures LogUpTo(RunChat(turns, l), t)
  {
    if turns != [] {
      var front, last := turns[..|turns| - 1], turns[|turns| - 1];
      if front != [] { assert front[|front| - 1].done <= last.asked; }
      RunChatUpTo(front, l, t);
    }
  }

  ghost predicate BucketsBounded(log: seq<Turn>, s: Span, limit: nat) {
    forall b :: Tokens(log, s, b) <= limit
  }

  ghost predicate DaysBounded(log: seq<Turn>, limit: nat) {
    forall d :: |DayTimes(log, d)| <= limit
  }

  // A turn that was admitted in one bucket may complete in a later, still empty one.
  lemma TokensSnoc(log: seq<Turn>, s: Span, asked: real, turn: Turn, limit: nat, largest: nat)
    requires limit >= 1 && LogUpTo(log, asked) && asked <= turn.at
    requires BucketsBounded(log, s, limit - 1 + largest)
    requires Tokens(log, s, Bucket(s, asked)) < limit && turn.tokens <= largest
    ensures BucketsBounded(log + [turn], s, limit - 1 + largest)
  {
    LogSnoc(log, turn);
    BucketMonotone(s, asked, turn.at);
    forall b ensures Tokens(log + [turn], s, b) <= limit - 1 + largest {
      assert Tokens(log, s, b) <= limit - 1 + largest;
      if b > Bucket(s, asked) { NothingLater(log, asked, s, b); }
    }
  }

  lemma DaysSnoc(log: seq<Turn>, asked: real, turn: Turn, limit: nat)
    requires DaysBounded(log, limit) && LogUpTo(log, asked) && asked <= turn.at
    requires limit >= 1 && |DayTimes(log, Bucket(OneDay, asked))| < limit
    ensures DaysBounded(log + [turn], limit)
  {
    LogSnoc(log, turn);
    BucketMonotone(OneDay, asked, turn.at);
    forall d ensures |DayTimes(log + [turn], d)| <= limit {
      assert |DayTimes(log, d)| <= limit;
      if d > Bucket(OneDay, asked) { NothingLater(log, asked, OneDay, d); }
    }
  }

  lemma HourSnoc(log: seq<Turn>, asked: real, turn: Turn, limit: nat)
    requires Bounded(Times(log), HOUR, limit) && LogUpTo(log, asked) && asked <= turn.at
    requires CountAt(Times(log), asked, HOUR) < limit
    ensures Bounded(Times(log + [turn]), HOUR, limit)
  {
    LogSnoc(log, turn);
    TimesUpTo(log, asked);
    AfterMonotone(Times(log), asked - HOUR, turn.at - HOUR);
    BoundedSnoc(Times(log), turn.at, HOUR, limit);
  }

  // Over every serial run: no hour window exceeds its request limit, no day its request
  // limit, and no token bucket its limit less one plus the largest turn.
  lemma {:induction false} ChatBounds(turns: seq<Attempt>, l: ChatLimits, largest: nat)
    requires InOrder(turns) && forall i :: 0 <= i < |turns| ==> turns[i].tokens <= largest
    requires l.requestsHour >= 1 && l.requestsDay >= 1 && l.tokensHour >= 1 && l.tokensDay >= 1
    ensures Bounded(Times(RunChat(turns, l)), HOUR, l.requestsHour)
    ensures DaysBounded(RunChat(turns, l), l.requestsDay)
    ensures BucketsBounded(RunChat(turns, l), OneHour, l.tokensHour - 1 + largest)
    ensures BucketsBounded(RunChat(turns, l), OneDay, l.tokensDay - 1 + largest)
  {
    if turns != [] {
      var front, last := turns[..|turns| - 1], turns[|turns| - 1];
      ChatBounds(front, l, largest);
      if front != [] { assert front[|front| - 1].done <= last.asked; }
      RunChatUpTo(front, l, last.asked);
      var log := RunChat(front, l);
      var d := ChatDecide(log, last.asked, l);
      if d.denied.None? {
        var turn := Turn(last.done, last.tokens);
        HourSnoc(log, last.asked, turn, l.requestsHour);
        DaysSnoc(log, last.asked, turn, l.requestsDay);
        TokensSnoc(log, OneHour, last.asked, turn, l.tokensHour, largest);
        TokensSnoc(log, OneDay, last.asked, turn, l.tokensDay, largest);
      }
    }
  }

  // The bucket a calendar limit counts in, what it has counted at time t, and the limit.
  function SpanOf(r: Reason): Span { if r.TokensHour? then OneHour else OneDay }

  function Counted(log: seq<Turn>, r: Reason, t: real): nat {
    match r
    case RequestsHour => CountAt(Times(log), t, HOUR)
    case RequestsDay => |DayTimes(log, Bucket(OneDay, t))|
    case TokensHour => Tokens(log, OneHour, Bucket(OneHour, t))
    case TokensDay => Tokens(log, OneDay, Bucket(OneDay, t))
  }

  function LimitFor(l: ChatLimits, r: Reason): nat {
    match r
    case RequestsHour => l.requestsHour
    case RequestsDay => l.requestsDay
    case TokensHour => l.tokensHour
    case TokensDay => l.tokensDay
  }

  // With nothing logged in between, a calendar limit that denies goes on denying until its
  // bucket ends; the retry time reported falls into the first second of the next bucket,
  // where the count starts at 0.
  lemma {:induction false} CalendarRetryExact(log: seq<Turn>, now: real, l: ChatLimits)
    requires LogUpTo(log, now)
    requires ChatDecide(log, now, l).denied.Some? && !ChatDecide(log, now, l).denied.value.RequestsHour?
    ensures var d := ChatDecide(log, now, l);
            var r := d.denied.value;
            var next := BucketStart(SpanOf(r), Bucket(SpanOf(r), now) + 1);
            && d.retryAfter.Some?
            && next <= now + d.retryAfter.value as real < next + 1.0
            && (forall t :: now <= t < next ==> Counted(log, r, t) >= LimitFor(l, r))
            && Counted(log, r, now + d.retryAfter.value as real) == 0
  {
    var s := SpanOf(ChatDecide(log, now, l).denied.value);
    UntilNextReachesNextBucket(s, now);
    NothingLater(log, now, s, Bucket(s, now) + 1);
    forall t | now <= t < BucketStart(s, Bucket(s, now) + 1) ensures Bucket(s, t) == Bucket(s, now) {
      BucketMonotone(s, now, t);
      BucketBounds(s, t);
    }
  }

  lemma {:induction false} TimesAscending(turns: seq<Attempt>, l: ChatLimits)
    requires InOrder(turns)
    ensures Ascending(Times(RunChat(turns, l)))
  {
    if turns != [] {
      var front, last := turns[..|turns| - 1], turns[|turns| - 1];
      TimesAscending(front, l);
      if front != [] { assert front[|front| - 1].done <= last.asked; }
      RunChatUpTo(front, l, last.done);
      TimesUpTo(RunChat(front, l), last.done);
      LogSnoc(RunChat(front, l), Turn(last.done, last.tokens));
    }
  }

  // A denial by the hourly request limit reports an exact time, as in layer 1.
  lemma {:induction false} HourlyRetryExact(turns: seq<Attempt>, l: ChatLimits, largest: nat, now: real)
    requires InOrder(turns) && (turns != [] ==> turns[|turns| - 1].done <= now)
    requires forall i :: 0 <= i < |turns| ==> turns[i].tokens <= largest
    requires l.requestsHour >= 1 && l.requestsDay >= 1 && l.tokensHour >= 1 && l.tokensDay >= 1
    requires CountAt(Times(RunChat(turns, l)), now, HOUR) >= l.requestsHour
    ensures ChatDecide(RunChat(turns, l), now, l).denied == Some(RequestsHour)
    ensures var times := Times(RunChat(turns, l));
            && Prune(times, now - HOUR) != []
            && PassesFrom(times, now, HOUR, l.requestsHour, UntilFree(times, now, HOUR))
            && UntilFree(times, now, HOUR) < RetryAfter(times, now, HOUR) as real <= UntilFree(times, now, HOUR) + 1.0
            && ChatDecide(RunChat(turns, l), now, l).retryAfter == Some(RetryAfter(times, now, HOUR))
  {
    ChatBounds(turns, l, largest);
    TimesAscending(turns, l);
    RunChatUpTo(turns, l, now);
    TimesUpTo(RunChat(turns, l), now);
    RetryTimeExact(Times(RunChat(turns, l)), now, HOUR, l.requestsHour);
  }
}
