/** The per-IP request limiter: one counter a window, two limits on it, and the clean-ups.
    Time is in nanoseconds. */
module RateLimit {
  import opened Text
  import opened Decimal

  const SECOND: int := 1_000_000_000
  const MINUTE: int := 60 * SECOND
  const MAX_ENTRIES: nat := 100_000

  datatype Entry = Entry(count: int, windowStart: int)

  datatype Answer = Answer(allowed: bool, remaining: int, resetSeconds: int)

  datatype Limits = Limits(publicPerMinute: int, authPerMinute: int)

  type Entries = map<string, Entry>

  function LimitFor(c: Limits, isPublic: bool): int {
    if isPublic then c.publicPerMinute else c.authPerMinute
  }

  predicate Expired(e: Entry, now: int) {
    now - e.windowStart > MINUTE
  }

  /** int(60 - elapsed) with at least 1; Go truncates towards zero. */
  function ResetSeconds(elapsed: int): int {
    var left := MINUTE - elapsed;
    var seconds := if left >= 0 then left / SECOND else -((-left) / SECOND);
    if seconds < 1 then 1 else seconds
  }

  // ---------------------------------------------------------------- one request, as a specification

  /** The window that counts this request: the live one, or a new one. */
  function Counted(prior: Option<Entry>, now: int): Entry {
    match prior
    case None => Entry(1, now)
    case Some(e) => if Expired(e, now) then Entry(1, now) else Entry(e.count + 1, e.windowStart)
  }

  function AnswerFor(prior: Option<Entry>, limit: int, now: int): Answer {
    if prior.None? || Expired(prior.value, now) then Answer(true, limit - 1, 60)
    else
      var count := prior.value.count + 1;
      var reset := ResetSeconds(now - prior.value.windowStart);
      if count > limit then Answer(false, 0, reset) else Answer(true, limit - count, reset)
  }

  function Find(entries: Entries, ip: string): Option<Entry> {
    if ip in entries then Some(entries[ip]) else None
  }

  function WithoutExpired(entries: Entries, now: int): Entries {
    map ip | ip in entries && !Expired(entries[ip], now) :: entries[ip]
  }

  /** The emergency branch: drop what is expired, and everything if that is not enough. */
  function Purged(entries: Entries, now: int): Entries {
    if |entries| > MAX_ENTRIES then
      var live := WithoutExpired(entries, now);
      if |live| > MAX_ENTRIES then map[] else live
    else entries
  }

  /** One call of Allow, or one tick of the cleaner. `purgeNow` is the second clock reading. */
  datatype Event =
    | Request(ip: string, isPublic: bool, now: int, purgeNow: int)
    | Tick(now: int)

  function Step(entries: Entries, c: Limits, e: Event): (Entries, Option<Answer>) {
    match e
    case Tick(now) => (WithoutExpired(entries, now), None)
    case Request(ip, isPublic, now, purgeNow) =>
      var limit := LimitFor(c, isPublic);
      if limit == 0 then (entries, Some(Answer(true, -1, 0)))
      else
        var kept := Purged(entries, purgeNow);
        (kept[ip := Counted(Find(kept, ip), now)], Some(AnswerFor(Find(kept, ip), limit, now)))
  }

  /** The same limiter without any clean-up. */
  function IdealStep(entries: Entries, c: Limits, e: Event): (Entries, Option<Answer>) {
    match e
    case Tick(_) => (entries, None)
    case Request(ip, isPublic, now, _) =>
      var limit := LimitFor(c, isPublic);
      if limit == 0 then (entries, Some(Answer(true, -1, 0)))
      else (entries[ip := Counted(Find(entries, ip), now)], Some(AnswerFor(Find(entries, ip), limit, now)))
  }

  // ---------------------------------------------------------------- the class

  class RateLimiter {
    var entries: Entries
    const config: Limits

    constructor (config: Limits)
      ensures this.config == config && entries == map[]
    {
      this.config := config;
      entries := map[];
    }

    /** Delete the expired entries, in whatever order the map gives. */
    method DropExpired(now: int)
      modifies `entries
      ensures entries == WithoutExpired(old(entries), now)
    {
      var rest := entries.Keys;
      while rest != {}
        invariant rest <= old(entries).Keys
        invariant forall ip :: ip in entries <==> ip in old(entries) && (ip in rest || !Expired(old(entries)[ip], now))
        invariant forall ip | ip in entries :: entries[ip] == old(entries)[ip]
        decreases rest
      {
        var ip :| ip in rest;
        rest := rest - {ip};
        if now - entries[ip].windowStart > MINUTE {
          entries := entries - {ip};
        }
      }
    }

    /** cleanup: `windowStart.Before(now - minute)`. */
    method Cleanup(now: int)
      modifies `entries
      ensures (entries, None) == Step(old(entries), config, Tick(now))
    {
      DropExpired(now);
    }

    /** Allow, with both clock readings as parameters. */
    method Allow(ip: string, isPublic: bool, now: int, purgeNow: int)
      returns (allowed: bool, remaining: int, reset: int)
      modifies `entries
      ensures (entries, Some(Answer(allowed, remaining, reset)))
              == Step(old(entries), config, Request(ip, isPublic, now, purgeNow))
      ensures (if isPublic then config.publicPerMinute else config.authPerMinute) == 0 ==>
                allowed && remaining == -1 && reset == 0 && entries == old(entries)
    {
      var limit := config.authPerMinute;
      if isPublic {
        limit := config.publicPerMinute;
      }
      if limit == 0 {
        return true, -1, 0;
      }
      if |entries| > MAX_ENTRIES {
        DropExpired(purgeNow);
        if |entries| > MAX_ENTRIES {
          entries := map[];
        }
      }
      if ip !in entries || now - entries[ip].windowStart > MINUTE {
        entries := entries[ip := Entry(1, now)];
        return true, limit - 1, 60;
      }
      var entry := entries[ip];
      entry := entry.(count := entry.count + 1);
      entries := entries[ip := entry];
      reset := ResetSeconds(now - entry.windowStart);
      if entry.count > limit {
        return false, 0, reset;
      }
      return true, limit - entry.count, reset;
    }
  }

  /** itoa: digits from the back; a negative number prints nothing at all. */
  method Itoa(n: int) returns (s: string)
    ensures s == if n < 0 then "" else DigitsOf(n)
  {
    if n == 0 {
      return "0";
    }
    s := "";
    var m := n;
    while m > 0
      invariant m < 0 ==> s == "" && m == n
      invariant m > 0 ==> DigitsOf(m) + s == DigitsOf(n)
      invariant m == 0 ==> s == DigitsOf(n)
    {
      s := [DigitChar(m % 10)] + s;
      m := m / 10;
    }
  }

  // ---------------------------------------------------------------- which limit, which counter

  /** A request of a kind without a limit passes in every state and is not counted. */
  lemma {:induction false} UnlimitedPasses(entries: Entries, c: Limits, ip: string, isPublic: bool, now: int,
                                           purgeNow: int)
    requires if isPublic then c.publicPerMinute == 0 else c.authPerMinute == 0
    ensures Step(entries, c, Request(ip, isPublic, now, purgeNow)) == (entries, Some(Answer(true, -1, 0)))
  {
  }

  /** The entry is of a window that is still open. */
  predicate Live(entries: Entries, ip: string, now: int) {
    ip in entries && now - entries[ip].windowStart <= MINUTE
  }

  /** Any other request is measured by the limit of its own kind: it is denied exactly if its address has
      a live counter that has reached that limit, and it is counted in any case. */
  lemma {:induction false} OwnLimitDecides(entries: Entries, c: Limits, ip: string, isPublic: bool, now: int,
                                           purgeNow: int, limit: int)
    requires limit == (if isPublic then c.publicPerMinute else c.authPerMinute) != 0
    ensures var kept, s := Purged(entries, purgeNow), Step(entries, c, Request(ip, isPublic, now, purgeNow));
            && s.1.Some?
            && (!s.1.value.allowed <==> Live(kept, ip, now) && kept[ip].count >= limit)
            && s.0 == kept[ip := if Live(kept, ip, now) then Entry(kept[ip].count + 1, kept[ip].windowStart)
                                 else Entry(1, now)]
            && s.1.value.remaining == (if s.1.value.allowed then limit - s.0[ip].count else 0)
  {
  }

  /** The seconds to wait: all of a new window, else the full ones that are left of the open window, and 1
      in the last second. */
  lemma {:induction false} ResetIsWhatIsLeft(entries: Entries, c: Limits, ip: string, isPublic: bool, now: int,
                                             purgeNow: int)
    requires (if isPublic then c.publicPerMinute else c.authPerMinute) != 0
    ensures var kept := Purged(entries, purgeNow);
            var reset := Step(entries, c, Request(ip, isPublic, now, purgeNow)).1.value.resetSeconds;
            && (!Live(kept, ip, now) ==> reset == 60)
            && (Live(kept, ip, now) ==>
                  var left := kept[ip].windowStart + MINUTE - now;
                  if left < 2 * SECOND then reset == 1 else reset * SECOND <= left < (reset + 1) * SECOND)
  {
  }

  /** The emergency branch does nothing up to the cap; beyond it the live entries stay, unless those
      alone are too many. */
  lemma {:induction false} PurgeKeeps(entries: Entries, now: int)
    ensures |entries| <= MAX_ENTRIES ==> Purged(entries, now) == entries
    ensures forall ip | ip in Purged(entries, now) :: ip in entries && Purged(entries, now)[ip] == entries[ip]
    ensures |entries| > MAX_ENTRIES ==>
              var live := set ip | ip in entries && Live(entries, ip, now);
              Purged(entries, now).Keys == if |live| > MAX_ENTRIES then {} else live
  {
    var live := set ip | ip in entries && Live(entries, ip, now);
    assert WithoutExpired(entries, now).Keys == live;
    assert |WithoutExpired(entries, now)| == |live|;
  }

  /** A tick of the cleaner leaves exactly the live entries. */
  lemma {:induction false} TickKeepsLive(entries: Entries, c: Limits, now: int, ip: string)
    ensures var s := Step(entries, c, Tick(now));
            && s.1 == None && (ip in s.0 <==> Live(entries, ip, now)) && (ip in s.0 ==> s.0[ip] == entries[ip])
  {
  }

  // ---------------------------------------------------------------- clean-ups are invisible
  // ---------------------------------------------------------------- clean-ups are invisible

  /** A run: the events in the order in which they take the lock, the last one outermost. */
  datatype Trace = Start | Then(before: Trace, e: Event)

  function Run(c: Limits, t: Trace): Entries {
    match t
    case Start => map[]
    case Then(before, e) => Step(Run(c, before), c, e).0
  }

  function IdealRun(c: Limits, t: Trace): Entries {
    match t
    case Start => map[]
    case Then(before, e) => IdealStep(IdealRun(c, before), c, e).0
  }

  /** The last clock reading of an event: the emergency branch reads the clock again. */
  function LastReading(entries: Entries, e: Event): int {
    if e.Request? && |entries| > MAX_ENTRIES && e.purgeNow > e.now then e.purgeNow else e.now
  }

  /** The emergency branch takes the requester's own live counter away: it empties the table, or
      the minute ends between the two clock readings. */
  predicate LosesOwnCounter(entries: Entries, c: Limits, e: Event) {
    && e.Request? && LimitFor(c, e.isPublic) != 0
    && e.ip in entries && !Expired(entries[e.ip], e.now)
    && e.ip !in Purged(entries, e.purgeNow)
  }

  predicate Wipes(entries: Entries, c: Limits, e: Event) {
    && e.Request? && LimitFor(c, e.isPublic) != 0
    && |entries| > MAX_ENTRIES && |WithoutExpired(entries, e.purgeNow)| > MAX_ENTRIES
  }

  /** The actual table is the ideal one without some entries that are dead from time t on. */
  ghost predicate Simulates(actual: Entries, ideal: Entries, t: int) {
    && (forall ip | ip in actual :: ip in ideal && actual[ip] == ideal[ip])
    && (forall ip | ip in ideal && ip !in actual :: Expired(ideal[ip], t))
    && (forall ip | ip in ideal :: ideal[ip].count >= 1)
  }

  /** The two limiters answer alike exactly when the requester keeps its live counter. */
  lemma {:induction false} StepAnswers(actual: Entries, ideal: Entries, t: int, c: Limits, e: Event)
    requires Simulates(actual, ideal, t) && t <= e.now
    ensures Step(actual, c, e).1 == IdealStep(ideal, c, e).1 <==> !LosesOwnCounter(actual, c, e)
  {
  }

  lemma {:induction false} StepSimulates(actual: Entries, ideal: Entries, t: int, c: Limits, e: Event)
    requires Simulates(actual, ideal, t) && t <= e.now && (e.Request? ==> e.now <= e.purgeNow)
    requires !LosesOwnCounter(actual, c, e) && !Wipes(actual, c, e)
    ensures Simulates(Step(actual, c, e).0, IdealStep(ideal, c, e).0, LastReading(actual, e))
  {
  }

  /** Clock readings do not go back, in the order in which the lock is taken. */
  predicate Monotone(c: Limits, t: Trace) {
    match t
    case Start => true
    case Then(before, e) =>
      && Monotone(c, before)
      && (e.Request? ==> e.now <= e.purgeNow)
      && (before.Then? ==> LastReading(Run(c, before.before), before.e) <= e.now)
  }

  /** No event of the run meets the emergency branch at its worst. */
  predicate Undisturbed(c: Limits, t: Trace) {
    match t
    case Start => true
    case Then(before, e) =>
      && Undisturbed(c, before)
      && !LosesOwnCounter(Run(c, before), c, e) && !Wipes(Run(c, before), c, e)
  }

  lemma {:induction false} RunSimulates(c: Limits, t: Trace)
    requires Monotone(c, t) && Undisturbed(c, t) && t.Then?
    ensures Simulates(Run(c, t), IdealRun(c, t), LastReading(Run(c, t.before), t.e))
  {
    var Then(before, e) := t;
    if before.Start? {
      StepSimulates(map[], map[], e.now, c, e);
    } else {
      RunSimulates(c, before);
      StepSimulates(Run(c, before), IdealRun(c, before), LastReading(Run(c, before.before), before.e), c, e);
    }
  }

  /** Over any run with a monotone clock, clean-ups and purges never show: as long as no counter
      was lost to the emergency branch, the next answer is the one of the limiter that never
      deletes, exactly if the requester does not lose its own live counter now. */
  lemma {:induction false} CleanupIsInvisible(c: Limits, before: Trace, e: Event)
    requires Monotone(c, Then(before, e)) && Undisturbed(c, before)
    ensures Step(Run(c, before), c, e).1 == IdealStep(IdealRun(c, before), c, e).1
            <==> !LosesOwnCounter(Run(c, before), c, e)
  {
    if before.Start? {
      StepAnswers(map[], map[], e.now, c, e);
    } else {
      RunSimulates(c, before);
      StepAnswers(Run(c, before), IdealRun(c, before), LastReading(Run(c, before.before), before.e), c, e);
    }
  }

  // ---------------------------------------------------------------- how many requests get through

  predicate Tracked(c: Limits, e: Event, ip: string) {
    e.Request? && e.ip == ip && LimitFor(c, e.isPublic) != 0
  }

  predicate Allowed(c: Limits, entries: Entries, e: Event, ip: string) {
    Tracked(c, e, ip) && AnswerFor(Find(entries, ip), LimitFor(c, e.isPublic), e.now).allowed
  }

  /** Which requests are counted: public ones, if true is in it, and authenticated ones, if false is. */
  type Kinds = set<bool>

  /** The number of tracked requests of ip of these kinds that are allowed at a time in [a, b]. */
  function AllowedWithin(c: Limits, t: Trace, ip: string, kinds: Kinds, a: int, b: int): nat {
    match t
    case Start => 0
    case Then(before, e) =>
      AllowedWithin(c, before, ip, kinds, a, b)
        + if Allowed(c, IdealRun(c, before), e, ip) && e.isPublic in kinds && a <= e.now <= b then 1 else 0
  }

  function Max(a: int, b: int): int {
    if a < b then b else a
  }

  /** The larger limit; the first request of a window passes whatever the limit. */
  function Capacity(c: Limits): int {
    Max(1, Max(c.publicPerMinute, c.authPerMinute))
  }

  /** No counted kind has a limit above cap. */
  predicate CapsKinds(c: Limits, kinds: Kinds, cap: int) {
    cap >= 1 && (true in kinds ==> c.publicPerMinute <= cap) && (false in kinds ==> c.authPerMinute <= cap)
  }

  predicate InOrder(t: Trace) {
    match t
    case Start => true
    case Then(before, e) => InOrder(before) && (before.Then? ==> before.e.now <= e.now)
  }

  ghost predicate WindowBound(w: Option<Entry>, cap: int, n: nat, a: int) {
    match w
    case None => n == 0
    case Some(e) =>
      && e.count >= 1
      && (e.windowStart < a ==> n <= e.count - 1 && n <= cap - 1)
      && (a <= e.windowStart <= a + MINUTE ==> n <= cap - 1 + e.count)
      && n <= 2 * cap - 1
  }

  lemma {:induction false} WindowBoundHolds(c: Limits, t: Trace, ip: string, kinds: Kinds, cap: int, a: int)
    requires InOrder(t) && CapsKinds(c, kinds, cap)
    ensures WindowBound(Find(IdealRun(c, t), ip), cap, AllowedWithin(c, t, ip, kinds, a, a + MINUTE), a)
    ensures t.Then? && t.e.now < a ==> AllowedWithin(c, t, ip, kinds, a, a + MINUTE) == 0
    ensures t.Then? && Find(IdealRun(c, t), ip).Some? ==> IdealRun(c, t)[ip].windowStart <= t.e.now
  {
    if t.Then? {
      WindowBoundHolds(c, t.before, ip, kinds, cap, a);
    }
  }

  /** In any closed minute one address gets at most twice the limit less one through, of each kind by its
      own limit and of both by the larger one, although the limit is per minute: the window is fixed, not
      sliding. */
  lemma {:induction false} AtMostTwiceTheLimit(c: Limits, t: Trace, ip: string, kinds: Kinds, cap: int, a: int)
    requires InOrder(t) && CapsKinds(c, kinds, cap)
    ensures AllowedWithin(c, t, ip, kinds, a, a + MINUTE) <= 2 * cap - 1
  {
    WindowBoundHolds(c, t, ip, kinds, cap, a);
  }

  /** The same count on the real limiter. */
  function GotThrough(c: Limits, t: Trace, ip: string, kinds: Kinds, a: int, b: int): nat {
    match t
    case Start => 0
    case Then(before, e) =>
      GotThrough(c, before, ip, kinds, a, b)
        + if Tracked(c, e, ip) && e.isPublic in kinds && Step(Run(c, before), c, e).1.value.allowed && a <= e.now <= b
          then 1 else 0
  }

  lemma {:induction false} GotThroughIsIdeal(c: Limits, t: Trace, ip: string, kinds: Kinds, a: int, b: int)
    requires Monotone(c, t) && Undisturbed(c, t)
    ensures GotThrough(c, t, ip, kinds, a, b) == AllowedWithin(c, t, ip, kinds, a, b) && InOrder(t)
  {
    if t.Then? {
      GotThroughIsIdeal(c, t.before, ip, kinds, a, b);
      CleanupIsInvisible(c, t.before, t.e);
    }
  }

  /** The same bound for the real limiter, clean-ups and all. */
  lemma {:induction false} RealLimiterBound(c: Limits, t: Trace, ip: string, kinds: Kinds, cap: int, a: int)
    requires Monotone(c, t) && Undisturbed(c, t) && CapsKinds(c, kinds, cap)
    ensures GotThrough(c, t, ip, kinds, a, a + MINUTE) <= 2 * cap - 1
  {
    GotThroughIsIdeal(c, t, ip, kinds, a, a + MINUTE);
    AtMostTwiceTheLimit(c, t, ip, kinds, cap, a);
  }

  /** A run followed by n requests of one address and kind at one time. */
  function Burst(t: Trace, ip: string, isPublic: bool, n: nat, now: int): Trace {
    if n == 0 then t else Then(Burst(t, ip, isPublic, n - 1, now), Request(ip, isPublic, now, now))
  }

  predicate Opens(w: Option<Entry>, now: int) {
    w.None? || Expired(w.value, now)
  }

  /** How many requests the window open at this time has counted. */
  function CountAt(w: Option<Entry>, now: int): int {
    if Opens(w, now) then 0 else w.value.count
  }

  /** n more requests at one time go into one window. */
  lemma {:induction false} BurstWindow(c: Limits, t: Trace, ip: string, isPublic: bool, n: nat, now: int)
    requires LimitFor(c, isPublic) >= 1
    ensures var w, w' := Find(IdealRun(c, t), ip), Find(IdealRun(c, Burst(t, ip, isPublic, n, now)), ip);
            && (n == 0 ==> w' == w)
            && (n > 0 ==> w' == Some(Entry(CountAt(w, now) + n, if Opens(w, now) then now else w.value.windowStart)))
  {
    if n > 0 {
      BurstWindow(c, t, ip, isPublic, n - 1, now);
    }
  }

  /** As long as they fit the limit, they all pass. */
  lemma {:induction false} BurstPasses(c: Limits, t: Trace, ip: string, isPublic: bool, n: nat, now: int, a: int)
    requires LimitFor(c, isPublic) >= 1
    requires CountAt(Find(IdealRun(c, t), ip), now) + n <= LimitFor(c, isPublic)
    ensures AllowedWithin(c, Burst(t, ip, isPublic, n, now), ip, {isPublic}, a, a + MINUTE)
            == AllowedWithin(c, t, ip, {isPublic}, a, a + MINUTE) + (if a <= now <= a + MINUTE then n else 0)
  {
    if n > 0 {
      BurstPasses(c, t, ip, isPublic, n - 1, now, a);
      BurstWindow(c, t, ip, isPublic, n - 1, now);
    }
  }

  /** A run of one address alone, with single clock readings that do not go back. */
  predicate Lone(t: Trace, ip: string) {
    match t
    case Start => true
    case Then(before, e) =>
      && Lone(before, ip) && e.Request? && e.ip == ip && e.purgeNow == e.now
      && (before.Then? ==> before.e.now <= e.now)
  }

  lemma {:induction false} BurstIsLone(t: Trace, ip: string, isPublic: bool, n: nat, now: int)
    requires Lone(t, ip) && (t.Then? ==> t.e.now <= now)
    ensures var b := Burst(t, ip, isPublic, n, now); Lone(b, ip) && (b.Then? ==> b.e.now <= now)
  {
    if n > 0 {
      BurstIsLone(t, ip, isPublic, n - 1, now);
    }
  }

  /** One address never fills the table, so nothing is purged. */
  lemma {:induction false} LoneIsUndisturbed(c: Limits, t: Trace, ip: string)
    requires Lone(t, ip)
    ensures Run(c, t).Keys <= {ip} && Monotone(c, t) && Undisturbed(c, t)
  {
    if t.Then? {
      LoneIsUndisturbed(c, t.before, ip);
      FewKeys(Run(c, t.before), ip);
      if t.before.Then? {
        LoneIsUndisturbed(c, t.before.before, ip);
        FewKeys(Run(c, t.before.before), ip);
      }
    }
  }

  lemma {:induction false} FewKeys(entries: Entries, ip: string)
    requires entries.Keys <= {ip}
    ensures |entries| <= 1
  {
    if entries != map[] {
      assert entries.Keys == {ip};
    }
    assert |entries| == |entries.Keys|;
  }

  /** One request, the rest of its window at the very end, and a full new window a nanosecond later. */
  function WorstRun(ip: string, isPublic: bool, limit: nat): Trace
    requires limit >= 1
  {
    var first := Then(Start, Request(ip, isPublic, 0, 0));
    Burst(Burst(first, ip, isPublic, limit - 1, MINUTE), ip, isPublic, limit, MINUTE + 1)
  }

  lemma {:induction false} WorstRunPasses(c: Limits, ip: string, isPublic: bool, limit: nat)
    requires limit >= 1 && LimitFor(c, isPublic) == limit
    ensures AllowedWithin(c, WorstRun(ip, isPublic, limit), ip, {isPublic}, 1, 1 + MINUTE) == 2 * limit - 1
  {
    var first := Then(Start, Request(ip, isPublic, 0, 0));
    var second := Burst(first, ip, isPublic, limit - 1, MINUTE);
    BurstWindow(c, first, ip, isPublic, limit - 1, MINUTE);
    BurstPasses(c, first, ip, isPublic, limit - 1, MINUTE, 1);
    BurstPasses(c, second, ip, isPublic, limit, MINUTE + 1, 1);
  }

  /** The bound is reached on the real limiter, for each kind that has a limit. */
  lemma {:induction false} BoundIsReached(c: Limits, ip: string, isPublic: bool, limit: nat)
    requires limit >= 1 && limit == if isPublic then c.publicPerMinute else c.authPerMinute
    ensures var t := WorstRun(ip, isPublic, limit);
            && Monotone(c, t) && Undisturbed(c, t)
            && GotThrough(c, t, ip, {isPublic}, 1, 1 + MINUTE) == 2 * limit - 1
  {
    var t := WorstRun(ip, isPublic, limit);
    WorstRunPasses(c, ip, isPublic, limit);
    WorstRunIsLone(ip, isPublic, limit);
    LoneIsUndisturbed(c, t, ip);
    GotThroughIsIdeal(c, t, ip, {isPublic}, 1, 1 + MINUTE);
  }

  lemma {:induction false} WorstRunIsLone(ip: string, isPublic: bool, limit: nat)
    requires limit >= 1
    ensures Lone(WorstRun(ip, isPublic, limit), ip)
  {
    var first := Then(Start, Request(ip, isPublic, 0, 0));
    BurstIsLone(first, ip, isPublic, limit - 1, MINUTE);
    BurstIsLone(Burst(first, ip, isPublic, limit - 1, MINUTE), ip, isPublic, limit, MINUTE + 1);
  }

  /** In the minute from a on, ip got no more requests of the kind through than its limit. */
  predicate WithinLimit(c: Limits, t: Trace, ip: string, isPublic: bool, limit: nat, a: int) {
    GotThrough(c, t, ip, {isPublic}, a, a + MINUTE) <= limit
  }

  /** What the limit of a kind promises a minute holds over all undisturbed runs exactly when it is 1. */
  lemma {:induction false} LimitHoldsIff(c: Limits, ip: string, isPublic: bool, limit: nat)
    requires limit >= 1 && limit == if isPublic then c.publicPerMinute else c.authPerMinute
    ensures (forall t, a | Monotone(c, t) && Undisturbed(c, t) :: WithinLimit(c, t, ip, isPublic, limit, a))
            <==> limit == 1
  {
    if limit == 1 {
      forall t, a | Monotone(c, t) && Undisturbed(c, t) ensures WithinLimit(c, t, ip, isPublic, limit, a) {
        RealLimiterBound(c, t, ip, {isPublic}, limit, a);
      }
    } else {
      BoundIsReached(c, ip, isPublic, limit);
      assert !WithinLimit(c, WorstRun(ip, isPublic, limit), ip, isPublic, limit, 1);
    }
  }

  // ---------------------------------------------------------------- two limits on one counter

  /** What the real limiter has let through in the current window of ip: public requests, and
      authenticated ones. A window that was cleaned away or purged counts no more. */
  function Tally(c: Limits, t: Trace, ip: string): (nat, nat) {
    match t
    case Start => (0, 0)
    case Then(before, e) =>
      var sofar, entries := Tally(c, before, ip), Run(c, before);
      if ip !in Run(c, t) then (0, 0)
      else if !Tracked(c, e, ip) then sofar
      else
        var base := if Opens(Find(Purged(entries, e.purgeNow), ip), e.now) then (0, 0) else sofar;
        if !Step(entries, c, e).1.value.allowed then base
        else if e.isPublic then (base.0 + 1, base.1) else (base.0, base.1 + 1)
  }

  /** Within one window the shared counter keeps public and authenticated requests each within their own
      limit, and all together within the larger one, whatever the clock, the clean-ups and the purges do. */
  lemma {:induction false} SharedCounterBounds(c: Limits, t: Trace, ip: string)
    ensures var n := Tally(c, t, ip);
            && n.0 <= Max(1, c.publicPerMinute) && n.1 <= Max(1, c.authPerMinute) && n.0 + n.1 <= Capacity(c)
            && n.0 + n.1 <= match Find(Run(c, t), ip) case None => 0 case Some(e) => e.count
  {
    if t.Then? {
      SharedCounterBounds(c, t.before, ip);
    }
  }

  // ---------------------------------------------------------------- table size

  lemma {:induction false} SubmapIsSmaller(a: Entries, b: Entries)
    requires a.Keys <= b.Keys
    ensures |a| <= |b|
  {
    if a.Keys != {} {
      var k :| k in a.Keys;
      SubmapIsSmaller(a - {k}, b - {k});
      assert |a - {k}| == |a| - 1 && |b - {k}| == |b| - 1 by {
        assert (a - {k}).Keys == a.Keys - {k} && (b - {k}).Keys == b.Keys - {k};
      }
    }
  }

  /** The table never holds more than one entry over the cap. */
  lemma {:induction false} TableIsBounded(c: Limits, t: Trace)
    ensures |Run(c, t)| <= MAX_ENTRIES + 1
  {
    if t.Then? {
      var entries := Run(c, t.before);
      TableIsBounded(c, t.before);
      match t.e
      case Tick(now) => SubmapIsSmaller(WithoutExpired(entries, now), entries);
      case Request(ip, isPublic, now, purgeNow) =>
        var kept := Purged(entries, purgeNow);
        assert kept[ip := Counted(Find(kept, ip), now)].Keys == kept.Keys + {ip};
    }
  }

  // ---------------------------------------------------------------- the advice to come back later

  /** A denied request leaves the window where it is; its reset is between 1 and 60 seconds; one
      second more than that always opens a new window, and exactly that long only when less than
      a second of the window was left. */
  lemma {:induction false} RetryAdvice(entries: Entries, c: Limits, ip: string, isPublic: bool, now: int, purgeNow: int)
    requires ip in entries ==> entries[ip].windowStart <= now
    requires !Step(entries, c, Request(ip, isPublic, now, purgeNow)).1.value.allowed
    ensures var s := Step(entries, c, Request(ip, isPublic, now, purgeNow));
            var reset := s.1.value.resetSeconds;
            && ip in entries && ip in s.0 && s.0[ip].windowStart == entries[ip].windowStart
            && 1 <= reset <= 60
            && Expired(s.0[ip], now + (reset + 1) * SECOND)
            && (Expired(s.0[ip], now + reset * SECOND) <==> now - entries[ip].windowStart > 59 * SECOND)
  {
  }
}
