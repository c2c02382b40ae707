/** The in-memory token bucket. */
module TokenBucketLimiter {
  import opened Runs
  import opened Text

  datatype Config = Config(rps: real, burst: int)

  ghost predicate GoodConfig(c: Config) {
    c.rps > 0.0 && c.burst >= 0
  }

  datatype TokenData = TokenData(tokens: real, lastRefill: int)

  datatype State = State(tokens: map<string, TokenData>, lastCleanup: int)

  // ----- Refilling -----

  function Min(a: real, b: real): real {
    if a < b then a else b
  }

  function Seconds(d: int): real {
    d as real / SECOND as real
  }

  /** The tokens that accumulate in `d` nanoseconds. */
  function Earned(c: Config, d: int): real {
    Seconds(d) * c.rps
  }

  function Refill(c: Config, tokens: real, d: int): real {
    Min(tokens + Earned(c, d), c.burst as real)
  }

  lemma EarnedAdds(c: Config, d1: int, d2: int)
    ensures Earned(c, d1 + d2) == Earned(c, d1) + Earned(c, d2)
  {
    assert Seconds(d1 + d2) == Seconds(d1) + Seconds(d2);
    var a, b := Seconds(d1), Seconds(d2);
    assert (a + b) * c.rps == a * c.rps + b * c.rps;
  }

  lemma EarnedMonotone(c: Config, d1: int, d2: int)
    requires GoodConfig(c) && d1 <= d2
    ensures Earned(c, d1) <= Earned(c, d2)
    ensures 0 <= d1 ==> 0.0 <= Earned(c, d1)
  {
    var a, b := Seconds(d1), Seconds(d2);
    assert a <= b && (0 <= d1 ==> 0.0 <= a);
    MulMonotone(a, b, c.rps);
    if 0 <= d1 {
      MulMonotone(0.0, a, c.rps);
    }
  }

  lemma MulMonotone(a: real, b: real, r: real)
    requires a <= b && r > 0.0
    ensures a * r <= b * r
  {
    assert (b - a) * r >= 0.0;
  }

  /** Capped refilling composes: looking in between changes nothing. */
  lemma RefillComposes(c: Config, tokens: real, d1: int, d2: int)
    requires GoodConfig(c) && d1 >= 0 && d2 >= 0
    ensures Refill(c, Refill(c, tokens, d1), d2) == Refill(c, tokens, d1 + d2)
  {
    EarnedAdds(c, d1, d2);
    EarnedMonotone(c, 0, d1);
    EarnedMonotone(c, 0, d2);
    EarnedMonotone(c, d1, d1);
    EarnedMonotone(c, d2, d2);
  }

  // ----- One call -----

  function Cleaned(tokens: map<string, TokenData>, now: int): map<string, TokenData> {
    map k | k in tokens && tokens[k].lastRefill >= now - HOUR :: tokens[k]
  }

  function Housekeeping(st: State, now: int): State {
    if now - st.lastCleanup > HOUR then State(Cleaned(st.tokens, now), now) else st
  }

  /** The tokens in a bucket at `now`; a bucket never used is full. */
  function Level(c: Config, d: Option<TokenData>, now: int): real {
    match d
    case None => c.burst as real
    case Some(t) => Refill(c, t.tokens, now - t.lastRefill)
  }

  function Take(level: real, n: int, now: int): (TokenData, bool) {
    if level >= n as real then (TokenData(level - n as real, now), true) else (TokenData(level, now), false)
  }

  function Lookup(tokens: map<string, TokenData>, key: string): Option<TokenData> {
    if key in tokens then Some(tokens[key]) else None
  }

  function AllowStep(c: Config, st: State, key: string, n: int, now: int): (State, bool) {
    if n <= 0 then (st, true)
    else
      var st1 := Housekeeping(st, now);
      var (d, ok) := Take(Level(c, Lookup(st1.tokens, key), now), n, now);
      (st1.(tokens := st1.tokens[key := d]), ok)
  }

  function RemainingAt(c: Config, st: State, key: string, now: int): int {
    Level(c, Lookup(st.tokens, key), now).Floor
  }

  function Step(c: Config, st: State, e: Event): (State, bool) {
    match e
    case Call(key, n, now) => AllowStep(c, st, key, n, now)
    case Reset(key, _) => (st.(tokens := st.tokens - {key}), true)
  }

  function Run(c: Config, st: State, events: seq<Event>): (r: seq<bool>)
    ensures |r| == |events|
    decreases |events|
  {
    if events == [] then []
    else
      var (st', ok) := Step(c, st, events[0]);
      [ok] + Run(c, st', events[1..])
  }

  // ----- One key, never cleaned up -----

  function KeyAllow(c: Config, d: Option<TokenData>, n: int, now: int): (Option<TokenData>, bool) {
    if n <= 0 then (d, true)
    else
      var (d', ok) := Take(Level(c, d, now), n, now);
      (Some(d'), ok)
  }

  function Forever(c: Config): Allow<Option<TokenData>> {
    (d, n, now) => KeyAllow(c, d, n, now)
  }

  ghost predicate InRange(c: Config, d: Option<TokenData>, clock: int) {
    d.Some? ==> 0.0 <= d.value.tokens <= c.burst as real && d.value.lastRefill <= clock
  }

  /** The bucket is full at `clock`, as one that was never used. */
  ghost predicate Full(c: Config, d: Option<TokenData>, clock: int) {
    Level(c, d, clock) == c.burst as real
  }

  ghost predicate SameBucket(c: Config, st: State, key: string, d: Option<TokenData>, clock: int) {
    InRange(c, d, clock) && (if key in st.tokens then d == Some(st.tokens[key]) else Full(c, d, clock))
  }

  ghost predicate Simulates(c: Config, st: State, ds: map<string, Option<TokenData>>, clock: int) {
    forall key :: SameBucket(c, st, key, StateOf(ds, key, None), clock)
  }

  /** What cleanup needs: any bucket is full again when cleanup may delete it, which is after more than an hour. */
  ghost predicate RefillsInAnHour(c: Config) {
    c.burst as real <= Earned(c, HOUR + 1)
  }

  lemma LevelBounds(c: Config, d: Option<TokenData>, clock: int)
    requires GoodConfig(c) && InRange(c, d, clock)
    ensures 0.0 <= Level(c, d, clock) <= c.burst as real
  {
    if d.Some? {
      EarnedMonotone(c, 0, clock - d.value.lastRefill);
      EarnedMonotone(c, clock - d.value.lastRefill, clock - d.value.lastRefill);
    }
  }

  lemma FullLater(c: Config, d: Option<TokenData>, clock: int, now: int)
    requires GoodConfig(c) && InRange(c, d, clock) && clock <= now && Full(c, d, clock)
    ensures Full(c, d, now)
  {
    if d.Some? {
      EarnedMonotone(c, clock - d.value.lastRefill, now - d.value.lastRefill);
    }
  }

  lemma HourFills(c: Config, d: Option<TokenData>, now: int)
    requires GoodConfig(c) && RefillsInAnHour(c) && InRange(c, d, now) && d.Some? && d.value.lastRefill < now - HOUR
    ensures Full(c, d, now)
  {
    EarnedMonotone(c, HOUR + 1, now - d.value.lastRefill);
  }

  lemma HousekeepingSimulates(c: Config, st: State, ds: map<string, Option<TokenData>>, clock: int, now: int)
    requires GoodConfig(c) && RefillsInAnHour(c) && Simulates(c, st, ds, clock) && clock <= now
    ensures Simulates(c, Housekeeping(st, now), ds, now)
  {
    var st' := Housekeeping(st, now);
    forall key ensures SameBucket(c, st', key, StateOf(ds, key, None), now) {
      var d := StateOf(ds, key, None);
      assert SameBucket(c, st, key, d, clock);
      if key !in st.tokens {
        FullLater(c, d, clock, now);
      } else if st.tokens[key].lastRefill < now - HOUR {
        HourFills(c, d, now);
      }
    }
  }

  lemma WaitSimulates(c: Config, st: State, ds: map<string, Option<TokenData>>, clock: int, now: int)
    requires GoodConfig(c) && Simulates(c, st, ds, clock) && clock <= now
    ensures Simulates(c, st, ds, now)
  {
    forall key ensures SameBucket(c, st, key, StateOf(ds, key, None), now) {
      var d := StateOf(ds, key, None);
      assert SameBucket(c, st, key, d, clock);
      if key !in st.tokens {
        FullLater(c, d, clock, now);
      }
    }
  }

  lemma StepSimulates(c: Config, st: State, ds: map<string, Option<TokenData>>, clock: int, e: Event)
    requires GoodConfig(c) && RefillsInAnHour(c) && Simulates(c, st, ds, clock) && clock <= e.now
    ensures var (d', ok) := KeyStep(Forever(c), None, StateOf(ds, e.key, None), e);
            Step(c, st, e).1 == ok && Simulates(c, Step(c, st, e).0, ds[e.key := d'], e.now)
  {
    var d := StateOf(ds, e.key, None);
    var (d', ok) := KeyStep(Forever(c), None, d, e);
    var st' := Step(c, st, e).0;
    WaitSimulates(c, st, ds, clock, e.now);
    HousekeepingSimulates(c, st, ds, clock, e.now);
    var st1 := Housekeeping(st, e.now);
    assert SameBucket(c, st1, e.key, d, e.now);
    LevelBounds(c, d, e.now);
    assert Level(c, Lookup(st1.tokens, e.key), e.now) == Level(c, d, e.now);
    hide Level, Housekeeping;
    var ds' := ds[e.key := d'];
    forall key ensures SameBucket(c, st', key, StateOf(ds', key, None), e.now) {
      assert SameBucket(c, st1, key, StateOf(ds, key, None), e.now);
      assert SameBucket(c, st, key, StateOf(ds, key, None), e.now);
      if key == e.key && e.Reset? {
        NeverUsedIsFull(c, e.now);
      }
    }
  }

  lemma NeverUsedIsFull(c: Config, now: int)
    ensures Full(c, None, now)
  {
  }

  lemma {:induction false} RunSimulates(c: Config, st: State, ds: map<string, Option<TokenData>>, clock: int,
                                        events: seq<Event>)
    requires GoodConfig(c) && RefillsInAnHour(c) && Simulates(c, st, ds, clock) && Timed(events, clock)
    ensures Run(c, st, events) == AllKeysRun(Forever(c), None, ds, events)
    decreases |events|
  {
    if events != [] {
      var e := events[0];
      TimedTail(events, clock);
      StepSimulates(c, st, ds, clock, e);
      var (d', ok) := KeyStep(Forever(c), None, StateOf(ds, e.key, None), e);
      hide Simulates, Step;
      RunSimulates(c, Step(c, st, e).0, ds[e.key := d'], e.now, events[1..]);
    }
  }

  /** Cleanup is invisible and keys are independent: in any interleaving, a key is answered as if it were alone and
      never cleaned up. */
  lemma KeyAlone(c: Config, start: int, events: seq<Event>, key: string)
    requires GoodConfig(c) && RefillsInAnHour(c) && Timed(events, start)
    ensures AnswersOf(events, Run(c, State(map[], start), events), key) ==
            KeyRun(Forever(c), None, None, EventsOf(events, key))
  {
    assert Simulates(c, State(map[], start), map[], start);
    RunSimulates(c, State(map[], start), map[], start, events);
    KeysIndependent(Forever(c), None, map[], events, key);
  }

  /** Two calls: the second is granted if and only if it asks for no more than the burst and the tokens it lacks are
      earned in between. */
  lemma SecondCallGrantedIff(c: Config, key: string, m: int, n: int, now: int, later: int)
    requires GoodConfig(c) && 1 <= m <= c.burst && 1 <= n && now <= later
    ensures KeyRun(Forever(c), None, None, [Call(key, m, now), Call(key, n, later)]) ==
            [true, n <= c.burst &&
                   (n - (c.burst - m)) as real * 1_000_000_000.0 <= c.rps * (later - now) as real]
  {
    var a, b := Call(key, m, now), Call(key, n, later);
    TwoAnswers(Forever(c), None, a, b);
    var left, d := (c.burst - m) as real, later - now;
    assert KeyAllow(c, None, m, now) == (Some(TokenData(left, now)), true);
    var earned := Earned(c, d);
    assert Seconds(d) * 1_000_000_000.0 == d as real;
    assert earned * 1_000_000_000.0 == c.rps * d as real;
    assert KeyAllow(c, Some(TokenData(left, now)), n, later).1 <==> Min(left + earned, c.burst as real) >= n as real;
  }

  /** A positive call more than an hour after the last cleanup drops exactly the other keys that were not called for
      an hour; one before drops none. */
  lemma IdleKeysDropped(c: Config, st: State, key: string, n: int, now: int, other: string)
    requires n > 0 && other != key
    ensures var st' := AllowStep(c, st, key, n, now).0;
            && (other in st'.tokens <==>
                && other in st.tokens
                && (now - st.lastCleanup > 3_600_000_000_000 ==>
                    st.tokens[other].lastRefill >= now - 3_600_000_000_000))
            && (other in st'.tokens ==> st'.tokens[other] == st.tokens[other])
            && st'.lastCleanup == if now - st.lastCleanup > 3_600_000_000_000 then now else st.lastCleanup
  {
  }

  /** The bound is needed: a bucket that such a time does not refill is full again after cleanup. */
  lemma SlowBucketForgets(c: Config)
    requires GoodConfig(c) && !RefillsInAnHour(c)
    ensures var events := [Call("k", c.burst, 0), Call("k", c.burst, HOUR + 1)];
            && Run(c, State(map[], 0), events) == [true, true]
            && KeyRun(Forever(c), None, None, events) == [true, false]
  {
    EarnedMonotone(c, 0, HOUR + 1);
    var e0, e1 := Call("k", c.burst, 0), Call("k", c.burst, HOUR + 1);
    assert [e0, e1][1..] == [e1] && [e1][1..] == [];
    var st := AllowStep(c, State(map[], 0), "k", c.burst, 0).0;
    assert st.tokens["k"] == TokenData(0.0, 0);
    assert "k" !in Housekeeping(st, HOUR + 1).tokens;
    assert KeyAllow(c, None, c.burst, 0) == (Some(TokenData(0.0, 0)), true);
    assert !KeyAllow(c, Some(TokenData(0.0, 0)), c.burst, HOUR + 1).1;
  }

  /** Cleanup is invisible in every run if and only if more than an hour refills any bucket. */
  lemma CleanupInvisibleIff(c: Config)
    requires GoodConfig(c)
    ensures (forall start, events, key {:trigger AnswersOf(events, Run(c, State(map[], start), events), key)} ::
               Timed(events, start) ==>
                 AnswersOf(events, Run(c, State(map[], start), events), key) ==
                 KeyRun(Forever(c), None, None, EventsOf(events, key)))
            <==> RefillsInAnHour(c)
  {
    if RefillsInAnHour(c) {
      forall start, events, key | Timed(events, start)
        ensures AnswersOf(events, Run(c, State(map[], start), events), key) ==
                KeyRun(Forever(c), None, None, EventsOf(events, key))
      {
        KeyAlone(c, start, events, key);
      }
    } else {
      var e0, e1 := Call("k", c.burst, 0), Call("k", c.burst, HOUR + 1);
      SlowBucketForgets(c);
      OneKey(e0, e1, true, true);
      assert Timed([e0, e1], 0);
      assert AnswersOf([e0, e1], Run(c, State(map[], 0), [e0, e1]), "k") !=
             KeyRun(Forever(c), None, None, EventsOf([e0, e1], "k"));
    }
  }

  // ----- Denied calls -----

  /** Two buckets that no later call can tell apart. */
  ghost predicate Alike(c: Config, d1: Option<TokenData>, d2: Option<TokenData>, clock: int) {
    InRange(c, d1, clock) && InRange(c, d2, clock) && forall t :: t >= clock ==> Level(c, d1, t) == Level(c, d2, t)
  }

  /** A denied call leaves a bucket that no later call can tell from the one before it. */
  lemma DeniedInvisible(c: Config, d: Option<TokenData>, clock: int, n: int, now: int)
    requires GoodConfig(c) && InRange(c, d, clock) && clock <= now && !KeyAllow(c, d, n, now).1
    ensures Alike(c, KeyAllow(c, d, n, now).0, d, now)
  {
    LevelBounds(c, d, now);
    forall t | t >= now ensures Level(c, KeyAllow(c, d, n, now).0, t) == Level(c, d, t) {
      match d {
        case None =>
          EarnedMonotone(c, 0, t - now);
          EarnedMonotone(c, t - now, t - now);
        case Some(x) => RefillComposes(c, x.tokens, now - x.lastRefill, t - now);
      }
    }
  }

  /** Buckets that are alike answer every run alike. */
  lemma {:induction false} AlikeRuns(c: Config, d1: Option<TokenData>, d2: Option<TokenData>, clock: int,
                                     events: seq<Event>)
    requires GoodConfig(c) && Alike(c, d1, d2, clock) && Timed(events, clock)
    ensures KeyRun(Forever(c), None, d1, events) == KeyRun(Forever(c), None, d2, events)
    decreases |events|
  {
    if events != [] {
      var e := events[0];
      TimedTail(events, clock);
      var (a, ok1) := KeyStep(Forever(c), None, d1, e);
      var (b, ok2) := KeyStep(Forever(c), None, d2, e);
      assert Level(c, d1, e.now) == Level(c, d2, e.now);
      LevelBounds(c, d1, e.now);
      AlikeRuns(c, a, b, e.now, events[1..]);
    }
  }

  // ----- Bounds over whole runs -----

  /** The grants of one key and its bucket: from any time on, what was granted and what is left fit in the burst and
      what has accumulated since. */
  ghost predicate Accounted(c: Config, log: seq<Grant>, d: Option<TokenData>, clock: int) {
    && InRange(c, d, clock)
    && (d.None? ==> log == [])
    && (d.Some? ==>
          && Until(log, d.value.lastRefill)
          && forall lo :: lo <= d.value.lastRefill ==>
               Total(log, lo, d.value.lastRefill) as real + d.value.tokens <= c.burst as real +
                 Earned(c, d.value.lastRefill - lo))
    && Paced(c, log)
  }

  /** Every interval contains no more than the burst and what accumulates in it. */
  ghost predicate Paced(c: Config, log: seq<Grant>) {
    forall lo, hi :: lo <= hi ==> Total(log, lo, hi) as real <= c.burst as real + Earned(c, hi - lo)
  }

  /** Bringing a bucket up to `now` keeps the account. */
  lemma RefillAccounted(c: Config, log: seq<Grant>, d: Option<TokenData>, clock: int, now: int, lo: int)
    requires GoodConfig(c) && Accounted(c, log, d, clock) && clock <= now && lo <= now
    ensures Total(log, lo, now) as real + Level(c, d, now) <= c.burst as real + Earned(c, now - lo)
    ensures Until(log, now)
  {
    LevelBounds(c, d, now);
    EarnedMonotone(c, 0, now - lo);
    EarnedMonotone(c, now - lo, now - lo);
    if d.Some? {
      var last := d.value.lastRefill;
      TotalUntil(log, last, lo, now);
      if lo <= last {
        EarnedAdds(c, last - lo, now - last);
        assert (last - lo) + (now - last) == now - lo;
      }
    }
  }

  lemma CallAccounted(c: Config, log: seq<Grant>, d: Option<TokenData>, clock: int, n: int, now: int)
    requires GoodConfig(c) && Accounted(c, log, d, clock) && clock <= now
    ensures var (d', ok) := KeyAllow(c, d, n, now); Accounted(c, Extended(log, n, now, ok), d', now)
  {
    if n > 0 {
      var (d', ok) := KeyAllow(c, d, n, now);
      var log' := Extended(log, n, now, ok);
      LevelBounds(c, d, now);
      RefillAccounted(c, log, d, clock, now, now);
      hide Level, Earned;
      forall lo | lo <= now
        ensures Total(log', lo, now) as real + d'.value.tokens <= c.burst as real + Earned(c, now - lo)
      {
        RefillAccounted(c, log, d, clock, now, lo);
        TotalAppend(log, Grant(now, n), lo, now);
      }
      forall lo, hi | lo <= hi ensures Total(log', lo, hi) as real <= c.burst as real + Earned(c, hi - lo) {
        TotalAppend(log, Grant(now, n), lo, hi);
        if lo <= now <= hi {
          TotalUntil(log', now, lo, hi);
          EarnedMonotone(c, now - lo, hi - lo);
        }
      }
    }
  }

  lemma {:induction false} KeyRunAccounted(c: Config, log: seq<Grant>, d: Option<TokenData>, clock: int,
                                           events: seq<Event>)
    requires GoodConfig(c) && Accounted(c, log, d, clock) && Timed(events, clock) && NoResets(events)
    ensures Paced(c, log + GrantsOf(events, KeyRun(Forever(c), None, d, events)))
    decreases |events|
  {
    if events == [] {
      assert log + [] == log;
    } else {
      var e := events[0];
      assert e in events;
      TimedTail(events, clock);
      CallAccounted(c, log, d, clock, e.n, e.now);
      var (d', ok) := KeyAllow(c, d, e.n, e.now);
      hide Accounted, KeyAllow;
      KeyRunAccounted(c, Extended(log, e.n, e.now, ok), d', e.now, events[1..]);
      GrantsCons(log, events, KeyRun(Forever(c), None, d, events));
      assert KeyRun(Forever(c), None, d, events)[1..] == KeyRun(Forever(c), None, d', events[1..]);
    }
  }

  lemma StartAccounted(c: Config, clock: int)
    requires GoodConfig(c)
    ensures Accounted(c, [], None, clock)
  {
    forall lo, hi | lo <= hi ensures Total([], lo, hi) as real <= c.burst as real + Earned(c, hi - lo) {
      EarnedMonotone(c, 0, hi - lo);
      EarnedMonotone(c, hi - lo, hi - lo);
    }
  }

  lemma PacedAt(c: Config, log: seq<Grant>, t1: int, t2: int)
    requires Paced(c, log) && t1 <= t2
    ensures Total(log, t1, t2) as real <= c.burst as real + Earned(c, t2 - t1)
  {
    hide Total, Earned;
  }

  /** Token-bucket safety over whole runs: whatever the other keys do, the units granted in [t1, t2] to a key that is
      not reset are at most the burst and what accumulates from t1 to t2. */
  lemma TokenBucketSafety(c: Config, start: int, events: seq<Event>, key: string, t1: int, t2: int)
    requires GoodConfig(c) && RefillsInAnHour(c) && Timed(events, start) && NoResets(EventsOf(events, key)) && t1 <= t2
    ensures Total(GrantsOf(EventsOf(events, key), AnswersOf(events, Run(c, State(map[], start), events), key)), t1,
                  t2) as real
            <= c.burst as real + Earned(c, t2 - t1)
  {
    hide *;
    KeyAlone(c, start, events, key);
    EventsOfTimed(events, key, start);
    var mine := EventsOf(events, key);
    StartAccounted(c, start);
    KeyRunAccounted(c, [], None, start, mine);
    var log := GrantsOf(mine, KeyRun(Forever(c), None, None, mine));
    assert [] + log == log;
    PacedAt(c, log, t1, t2);
  }

  /** In every reachable state a call is granted exactly when it asks for nothing or for no more than what remains. */
  lemma GrantedIffRemaining(c: Config, st: State, ds: map<string, Option<TokenData>>, clock: int, key: string, n: int,
                            now: int)
    requires GoodConfig(c) && RefillsInAnHour(c) && Simulates(c, st, ds, clock) && clock <= now
    ensures AllowStep(c, st, key, n, now).1 <==> n <= 0 || n <= RemainingAt(c, st, key, now)
  {
    HousekeepingSimulates(c, st, ds, clock, now);
    WaitSimulates(c, st, ds, clock, now);
    assert SameBucket(c, st, key, StateOf(ds, key, None), now);
    assert SameBucket(c, Housekeeping(st, now), key, StateOf(ds, key, None), now);
    var level := Level(c, Lookup(st.tokens, key), now);
    assert level >= n as real <==> level.Floor >= n;
  }

  // ----- The limiter -----

  class TokenBucket {
    const rps: real
    const burstSize: int
    var tokens: map<string, TokenData>
    var lastCleanupTime: int

    function Cfg(): Config {
      Config(rps, burstSize)
    }

    function Abs(): State
      reads this
    {
      State(tokens, lastCleanupTime)
    }

    constructor (rps: real, burstSize: int, now: int)
      ensures GoodConfig(Cfg()) && Abs() == State(map[], now)
      ensures this.rps == (if rps <= 0.0 then 1.0 else rps)
      ensures this.burstSize == if burstSize < 1 then this.rps.Floor else burstSize
    {
      var rate := if rps <= 0.0 then 1.0 else rps;
      this.rps := rate;
      this.burstSize := if burstSize < 1 then rate.Floor else burstSize;
      tokens := map[];
      lastCleanupTime := now;
    }

    method AllowN(key: string, n: int, now: int) returns (ok: bool)
      modifies this
      ensures (Abs(), ok) == AllowStep(Cfg(), old(Abs()), key, n, now)
    {
      if n <= 0 {
        return true;
      }
      if now - lastCleanupTime > HOUR {
        Cleanup(now);
        lastCleanupTime := now;
      }
      assert Abs() == Housekeeping(old(Abs()), now);
      ghost var before := Lookup(tokens, key);
      var data := if key in tokens then tokens[key] else TokenData(burstSize as real, now);
      var elapsed := Seconds(now - data.lastRefill);
      data := data.(tokens := data.tokens + elapsed * rps);
      if data.tokens > burstSize as real {
        data := data.(tokens := burstSize as real);
      }
      assert data.tokens == Level(Cfg(), before, now);
      if data.tokens >= n as real {
        data := TokenData(data.tokens - n as real, now);
        tokens := tokens[key := data];
        return true;
      }
      data := data.(lastRefill := now);
      tokens := tokens[key := data];
      return false;
    }

    method Cleanup(now: int)
      modifies this`tokens
      ensures tokens == Cleaned(old(tokens), now)
    {
      var keys := tokens.Keys;
      while keys != {}
        invariant keys <= old(tokens).Keys
        invariant tokens == map k | k in old(tokens) && (k in keys || old(tokens)[k].lastRefill >= now - HOUR) ::
                  old(tokens)[k]
        decreases |keys|
      {
        var key :| key in keys;
        keys := keys - {key};
        if tokens[key].lastRefill < now - HOUR {
          tokens := tokens - {key};
        }
      }
    }

    method Remaining(key: string, now: int) returns (r: int)
      ensures r == RemainingAt(Cfg(), Abs(), key, now)
    {
      if key !in tokens {
        return burstSize;
      }
      var level := tokens[key].tokens + Seconds(now - tokens[key].lastRefill) * rps;
      if level > burstSize as real {
        level := burstSize as real;
      }
      return level.Floor;
    }

    method Reset(key: string)
      modifies this
      ensures Abs() == Step(Cfg(), old(Abs()), Event.Reset(key, 0)).0
    {
      tokens := tokens - {key};
    }
  }
}
