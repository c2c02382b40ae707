/** The token-bucket script: an integer bucket that expires, against a real one that never does. */
module RedisTokenBucket {
  import opened Arithmetic
  import opened Runs
  import opened Text
  import opened RedisLimiter
  import opened RedisServer
  import TB = TokenBucketLimiter

  /** The script's integer bucket, with a window of at least a second. */
  ghost predicate TokenConfig(c: Config) {
    GoodConfig(c) && c.algorithm == "token_bucket" && c.window >= SECOND
  }

  datatype Bucket = Bucket(tokens: int, lastUpdate: int)

  // ----- One key, never expired -----

  function LevelAt(c: Config, d: Option<Bucket>, now: int): int {
    if d.None? then c.limit
    else Refilled(c.limit, WindowSeconds(c), d.value.tokens, now / SECOND - d.value.lastUpdate)
  }

  function KeyAllow(c: Config, d: Option<Bucket>, n: int, now: int): (Option<Bucket>, bool) {
    if n <= 0 then (d, false)
    else
      var level := LevelAt(c, d, now);
      if level >= n then (Some(Bucket(level - n, now / SECOND)), true) else (d, false)
  }

  function Forever(c: Config): Allow<Option<Bucket>> {
    (d, n, now) => KeyAllow(c, d, n, now)
  }

  ghost predicate InRange(c: Config, d: Option<Bucket>, clock: int) {
    d.Some? ==> 0 <= d.value.tokens <= c.limit && d.value.lastUpdate <= clock / SECOND
  }

  lemma WholeSeconds(clock: int, now: int)
    requires clock <= now
    ensures clock / SECOND <= now / SECOND
    ensures 1000 * (now / SECOND) <= now / MILLISECOND < 1000 * (now / SECOND) + 1000
  {
  }

  /** What `elapsed` seconds add: nothing at first, the limit after a window. */
  lemma RefillBounds(limit: int, w: int, elapsed: int)
    requires limit > 0 && w > 0 && elapsed >= 0
    ensures elapsed * limit / w >= 0
    ensures elapsed >= w ==> elapsed * limit / w >= limit
  {
    MulMonotone(limit, 0, elapsed);
    DivAtLeast(0, elapsed * limit, w);
    if elapsed >= w {
      MulMonotone(limit, w, elapsed);
      DivAtLeast(limit, elapsed * limit, w);
    }
  }

  lemma LevelBounds(c: Config, d: Option<Bucket>, now: int)
    requires TokenConfig(c) && InRange(c, d, now)
    ensures 0 <= LevelAt(c, d, now) <= c.limit
    ensures d.Some? ==> d.value.tokens <= LevelAt(c, d, now)
    ensures d.Some? && now / SECOND >= d.value.lastUpdate + WindowSeconds(c) ==> LevelAt(c, d, now) == c.limit
  {
    if d.Some? {
      RefillBounds(c.limit, WindowSeconds(c), now / SECOND - d.value.lastUpdate);
    }
  }

  // ----- Expiry -----

  /** A stored entry is the key's bucket, kept for a window after its last update; an absent one is full. */
  ghost predicate SameBucket(c: Config, e: Option<Entry>, d: Option<Bucket>, clock: int) {
    && InRange(c, d, clock)
    && (if e.Some? then
          && d.Some? && e.value.value == Hash(d.value.tokens, d.value.lastUpdate)
          && e.value.expireAt.Some? && e.value.expireAt.value >= 1000 * (d.value.lastUpdate + WindowSeconds(c))
        else d.Some? ==> clock / SECOND >= d.value.lastUpdate + WindowSeconds(c))
  }

  lemma LiveSame(c: Config, e: Option<Entry>, d: Option<Bucket>, clock: int, now: int)
    requires TokenConfig(c) && SameBucket(c, e, d, clock) && clock <= now
    ensures SameBucket(c, e, d, now) && SameBucket(c, Live(e, now), d, now)
  {
    WholeSeconds(clock, now);
  }

  lemma StepSame(c: Config, e: Option<Entry>, d: Option<Bucket>, clock: int, event: Event)
    requires TokenConfig(c) && SameBucket(c, e, d, clock) && clock <= event.now
    ensures var (e', ok) := KeyStep(Scripted(c), None, e, event);
            var (d', ok') := KeyStep(Forever(c), None, d, event);
            ok == ok' && SameBucket(c, e', d', event.now)
  {
    LiveSame(c, e, d, clock, event.now);
    LevelBounds(c, d, event.now);
    WholeSeconds(event.now, event.now);
    assert WindowSeconds(c) >= 1;
    if event.Call? && event.n > 0 {
      var now := event.now;
      hide Refilled, Live;
      TokenLevel(c, e, d, event.n, now);
    }
  }

  /** The script finds the level of the bucket that never expires. */
  lemma TokenLevel(c: Config, e: Option<Entry>, d: Option<Bucket>, n: int, now: int)
    requires TokenConfig(c) && SameBucket(c, Live(e, now), d, now) && n > 0
    ensures AllowEntry(c, e, n, now) ==
            var level := LevelAt(c, d, now);
            if level >= n then (Expire(Hash(level - n, now / SECOND), WindowSeconds(c), now), Ok(true))
            else (Live(e, now), Ok(false))
  {
    hide Live;
    LevelBounds(c, d, now);
    if Live(e, now).None? {
      assert LevelAt(c, d, now) == c.limit;
      assert Refilled(c.limit, WindowSeconds(c), c.limit, 0) ==
             c.limit by { RefillBounds(c.limit, WindowSeconds(c), 0); }
    }
  }

  lemma {:induction false} RunSame(c: Config, e: Option<Entry>, d: Option<Bucket>, clock: int, events: seq<Event>)
    requires TokenConfig(c) && SameBucket(c, e, d, clock) && Timed(events, clock)
    ensures KeyRun(Scripted(c), None, e, events) == KeyRun(Forever(c), None, d, events)
    ensures SameBucket(c, KeyEnd(Scripted(c), None, e, events), KeyEnd(Forever(c), None, d, events),
                       if events == [] then clock else events[|events| - 1].now)
    decreases |events|
  {
    if events != [] {
      TimedTail(events, clock);
      StepSame(c, e, d, clock, events[0]);
      hide SameBucket, Scripted, Forever;
      RunSame(c, KeyStep(Scripted(c), None, e, events[0]).0, KeyStep(Forever(c), None, d, events[0]).0,
              events[0].now, events[1..]);
    }
  }

  /** EXPIRE never changes an answer. */
  lemma ExpiryInvisible(c: Config, start: int, events: seq<Event>, key: string)
    requires TokenConfig(c) && Timed(events, start)
    ensures AnswersOf(events, Run(c, map[], events), key) == KeyRun(Forever(c), None, None, EventsOf(events, key))
  {
    RunByKey(c, events, key);
    EventsOfTimed(events, key, start);
    RunSame(c, None, None, start, EventsOf(events, key));
  }

  /** What is earned back, exactly: after a call for `m` tokens, one for `n` tokens is granted if and only if `n` is at
      most the limit and the tokens it lacks are earned, the limit in a window, in the whole seconds between the two. */
  lemma SecondCallGrantedIff(c: Config, key: string, m: int, n: int, now: int, later: int)
    requires TokenConfig(c) && 1 <= m <= c.limit && 1 <= n && now <= later
    ensures KeyRun(Scripted(c), None, None, [Call(key, m, now), Call(key, n, later)]) ==
            [true, n <= c.limit &&
                   (c.window / SECOND) * (n - (c.limit - m)) <= c.limit * (later / SECOND - now / SECOND)]
  {
    var a, b := Call(key, m, now), Call(key, n, later);
    assert Timed([a, b], now);
    RunSame(c, None, None, now, [a, b]);
    TwoAnswers(Forever(c), None, a, b);
    var s := later / SECOND - now / SECOND;
    assert KeyAllow(c, None, m, now) == (Some(Bucket(c.limit - m, now / SECOND)), true);
    assert s * c.limit == c.limit * s;
    DivAtLeast(n - (c.limit - m), c.limit * s, c.window / SECOND);
  }

  /** A stored bucket always has an expiry and between none and the limit of tokens, and what `Remaining` reads from it
      is never more than a call is granted. */
  lemma StoredInRange(c: Config, start: int, events: seq<Event>, n: int, now: int)
    requires TokenConfig(c) && Timed(events, start) && (forall e :: e in events ==> e.now <= now) && start <= now
    ensures var e := KeyEnd(Scripted(c), None, None, events);
            var (_, remaining) := RemainingEntry(c, e, now);
            && (e.Some? ==> e.value.expireAt.Some? && e.value.value.Hash? && 0 <= e.value.value.tokens <= c.limit)
            && remaining.Ok? && 0 <= remaining.value <= c.limit
            && (1 <= n <= remaining.value ==> AllowEntry(c, e, n, now).1 == Ok(true))
  {
    RunSame(c, None, None, start, events);
    var e, d := KeyEnd(Scripted(c), None, None, events), KeyEnd(Forever(c), None, None, events);
    var clock := if events == [] then start else events[|events| - 1].now;
    hide KeyEnd, KeyRun;
    LiveSame(c, e, d, clock, now);
    LevelBounds(c, d, now);
    if n >= 1 {
      TokenLevel(c, e, d, n, now);
    }
  }

  // ----- The real bucket -----

  /** The real bucket that is asked for: it holds `limit` tokens and earns the limit in a window. */
  function Configured(c: Config): TB.Config
    requires c.window > 0
  {
    TB.Config(c.limit as real / TB.Seconds(c.window), c.limit)
  }

  /** The real bucket for the window cut to whole seconds, which is all the script is told. */
  function CutConfig(c: Config): TB.Config
    requires c.window >= SECOND
  {
    TB.Config(c.limit as real / WindowSeconds(c) as real, c.limit)
  }

  lemma WholeWindowConfigured(c: Config)
    requires TokenConfig(c) && c.window % SECOND == 0
    ensures Configured(c) == CutConfig(c)
  {
    assert c.window == WindowSeconds(c) * SECOND;
    assert c.window as real == WindowSeconds(c) as real * SECOND as real;
    assert TB.Seconds(c.window) == WindowSeconds(c) as real;
  }

  function OnSecond(now: int): int {
    now / SECOND * SECOND
  }

  /** The granted calls, at the whole seconds the script saw, and the resets. */
  function Kept(events: seq<Event>, answers: seq<bool>): seq<Event>
    requires |answers| == |events|
  {
    if events == [] then []
    else
      var e := events[0];
      (match e
       case Call(key, n, now) => if answers[0] then [Call(key, n, OnSecond(now))] else []
       case Reset(key, now) => [Reset(key, OnSecond(now))])
      + Kept(events[1..], answers[1..])
  }

  lemma FloorBelow(a: int, w: int)
    requires w > 0
    ensures (a / w) as real <= a as real / w as real
  {
    var q := a / w;
    assert q * w <= a;
    assert (q * w) as real == q as real * w as real;
    DivReal(q as real, a as real, w as real);
  }

  lemma DivReal(q: real, a: real, w: real)
    requires w > 0.0 && q * w <= a
    ensures q <= a / w
  {
    var d := a / w;
    assert d * w == a;
    assert (d - q) * w >= 0.0;
    PositiveFactor(d - q, w);
  }

  lemma PositiveFactor(x: real, w: real)
    requires w > 0.0 && x * w >= 0.0
    ensures x >= 0.0
  {
  }

  /** The real bucket has at least the tokens of the integer one. */
  ghost predicate Covers(d: Option<Bucket>, x: Option<TB.TokenData>) {
    match d
    case None => x.None?
    case Some(b) => x.Some? && x.value.tokens >= b.tokens as real && x.value.lastRefill == b.lastUpdate * SECOND
  }

  lemma MulDiv(s: real, l: real, w: real)
    requires w > 0.0
    ensures s * l / w == s * (l / w)
  {
    assert l / w * w == l;
    assert s * (l / w) * w == s * l;
  }

  lemma LevelCovers(c: Config, d: Option<Bucket>, x: Option<TB.TokenData>, now: int)
    requires TokenConfig(c) && Covers(d, x)
    ensures LevelAt(c, d, now) as real <= TB.Level(CutConfig(c), x, OnSecond(now))
  {
    if d.Some? {
      var elapsed := now / SECOND - d.value.lastUpdate;
      EarnedWhole(c, elapsed);
      FloorBelow(c.limit * elapsed, WindowSeconds(c));
      assert elapsed * c.limit == c.limit * elapsed;
      assert OnSecond(now) - x.value.lastRefill == (now / SECOND - d.value.lastUpdate) * SECOND;
    }
  }

  /** A call the integer bucket grants, the real bucket grants, and still has at least its tokens. */
  lemma RealGrants(c: Config, d: Option<Bucket>, x: Option<TB.TokenData>, n: int, now: int)
    requires TokenConfig(c) && Covers(d, x) && KeyAllow(c, d, n, now).1
    ensures var (x', ok) := TB.KeyAllow(CutConfig(c), x, n, OnSecond(now));
            ok && Covers(KeyAllow(c, d, n, now).0, x')
  {
    LevelCovers(c, d, x, now);
    hide LevelAt, TB.Level;
  }

  /** Whatever the integer bucket grants, the real bucket grants: every one of its grants, in order. */
  lemma {:induction false} RealGrantsAll(c: Config, d: Option<Bucket>, x: Option<TB.TokenData>, events: seq<Event>)
    requires TokenConfig(c) && Covers(d, x)
    ensures var kept := Kept(events, KeyRun(Forever(c), None, d, events));
            KeyRun(TB.Forever(CutConfig(c)), None, x, kept) == AllTrue(|kept|)
    decreases |events|
  {
    if events != [] {
      var e := events[0];
      var (d', ok) := KeyStep(Forever(c), None, d, e);
      assert KeyRun(Forever(c), None, d, events)[1..] == KeyRun(Forever(c), None, d', events[1..]);
      var rest := Kept(events[1..], KeyRun(Forever(c), None, d', events[1..]));
      assert Kept(events, KeyRun(Forever(c), None, d, events)) ==
             (if e.Reset? then [Reset(e.key, OnSecond(e.now))]
              else if ok then [Call(e.key, e.n, OnSecond(e.now))] else []) + rest;
      if e.Call? && ok {
        RealGrants(c, d, x, e.n, e.now);
        var x' := TB.KeyAllow(CutConfig(c), x, e.n, OnSecond(e.now)).0;
        RealGrantsAll(c, d', x', events[1..]);
        hide KeyRun, Kept, Covers, TB.KeyAllow, KeyAllow, AllTrue;
        OneMore(c, x, Call(e.key, e.n, OnSecond(e.now)), rest);
      } else if e.Call? {
        RealGrantsAll(c, d', x, events[1..]);
        assert [] + rest == rest;
      } else {
        RealGrantsAll(c, None, None, events[1..]);
        hide KeyRun, Kept, Covers, TB.KeyAllow, KeyAllow, AllTrue;
        OneMore(c, x, Reset(e.key, OnSecond(e.now)), rest);
      }
    }
  }

  lemma OneMore(c: Config, x: Option<TB.TokenData>, e: Event, rest: seq<Event>)
    requires TokenConfig(c)
    requires var (x', ok) := KeyStep(TB.Forever(CutConfig(c)), None, x, e);
             ok && KeyRun(TB.Forever(CutConfig(c)), None, x', rest) == AllTrue(|rest|)
    ensures KeyRun(TB.Forever(CutConfig(c)), None, x, [e] + rest) == AllTrue(|[e] + rest|)
  {
    hide TB.Forever, KeyStep;
    KeyRunCons(TB.Forever(CutConfig(c)), None, x, e, rest);
    hide KeyRun;
    assert [true] + AllTrue(|rest|) == AllTrue(1 + |rest|);
  }

  function AllTrue(n: nat): seq<bool> {
    seq(n, _ => true)
  }

  /** The script refines the bucket of the cut window: in any interleaving, the calls it grants on a key, taken at the
      whole seconds it saw, are granted one and all. */
  lemma ScriptRefinesCutBucket(c: Config, start: int, events: seq<Event>, key: string)
    requires TokenConfig(c) && Timed(events, start)
    ensures var kept := Kept(EventsOf(events, key), AnswersOf(events, Run(c, map[], events), key));
            KeyRun(TB.Forever(CutConfig(c)), None, None, kept) == AllTrue(|kept|)
  {
    ExpiryInvisible(c, start, events, key);
    RealGrantsAll(c, None, None, EventsOf(events, key));
  }

  /** A limiter of the token algorithm with any window that the constructor accepts. */
  ghost predicate TokenLimiter(c: Config) {
    GoodConfig(c) && c.algorithm == "token_bucket"
  }

  /** In every interleaving, the calls granted on a key, taken at the whole seconds the script saw, are calls that a
      real bucket of rate limit/window grants. */
  ghost predicate Refines(c: Config)
    requires c.window > 0
  {
    forall start, events, key :: Timed(events, start) ==>
      var kept := Kept(EventsOf(events, key), AnswersOf(events, Run(c, map[], events), key));
      KeyRun(TB.Forever(Configured(c)), None, None, kept) == AllTrue(|kept|)
  }

  /** The script refines the real bucket it was configured for if and only if the window is a number of whole
      seconds. */
  lemma ScriptRefinesRealBucket(c: Config)
    requires TokenLimiter(c)
    ensures Refines(c) <==> c.window % SECOND == 0
  {
    if c.window % SECOND == 0 {
      assert TokenConfig(c);
      WholeWindowConfigured(c);
      forall start, events, key | Timed(events, start)
        ensures var kept := Kept(EventsOf(events, key), AnswersOf(events, Run(c, map[], events), key));
                KeyRun(TB.Forever(Configured(c)), None, None, kept) == AllTrue(|kept|)
      {
        ScriptRefinesCutBucket(c, start, events, key);
      }
    } else {
      var events := TwoFullCalls(c);
      FractionalWindowRunsAhead(c);
      TwoFullCallsAnswers(c);
      TwoFullCallsKept(c);
      assert Timed(events, 0);
      assert AllTrue(2)[1];
      var kept := Kept(EventsOf(events, "k"), AnswersOf(events, Run(c, map[], events), "k"));
      assert KeyRun(TB.Forever(Configured(c)), None, None, kept) != AllTrue(|kept|);
    }
  }

  /** The whole limit at once, and again after the whole seconds of the window. */
  function TwoFullCalls(c: Config): seq<Event> {
    [Call("k", c.limit, 0), Call("k", c.limit, WindowSeconds(c) * SECOND)]
  }

  /** The script grants both, and the real bucket the second only if no part of the window is cut off. */
  lemma FractionalWindowRunsAhead(c: Config)
    requires TokenLimiter(c) && c.window % SECOND != 0
    ensures KeyRun(Scripted(c), None, None, TwoFullCalls(c)) == [true, true]
    ensures KeyRun(TB.Forever(Configured(c)), None, None, TwoFullCalls(c)) == [true, false]
  {
    var l, w, rc := c.limit, WindowSeconds(c), Configured(c);
    var a, b := Call("k", l, 0), Call("k", l, w * SECOND);
    assert 0 <= w * SECOND < c.window;
    TwoAnswers(Scripted(c), None, a, b);
    TwoAnswers(TB.Forever(rc), None, a, b);
    FullTwice(c);
    var x := TB.TokenData(0.0, 0);
    assert TB.KeyAllow(rc, None, l, 0) == (Some(x), true);
    EarnedBelow(c, w * SECOND);
    assert !TB.KeyAllow(rc, Some(x), l, w * SECOND).1;
  }

  lemma FullTwice(c: Config)
    requires TokenLimiter(c)
    ensures AllowEntry(c, None, c.limit, 0).1 == Ok(true)
    ensures AllowEntry(c, AllowEntry(c, None, c.limit, 0).0, c.limit, WindowSeconds(c) * SECOND).1 == Ok(true)
  {
    var l, w := c.limit, WindowSeconds(c);
    if w == 0 {
      assert AllowEntry(c, None, l, 0) == (None, Ok(true));
    } else {
      WholeWindowRefills(l, w);
      RefillBounds(l, w, 0);
      assert AllowEntry(c, None, l, 0) == (Some(Entry(Hash(0, 0), Some(1000 * w))), Ok(true));
      WholeSeconds(0, w * SECOND);
      assert w * SECOND / MILLISECOND == 1000 * w;
    }
  }

  lemma TwoFullCallsAnswers(c: Config)
    requires KeyRun(Scripted(c), None, None, TwoFullCalls(c)) == [true, true]
    ensures EventsOf(TwoFullCalls(c), "k") == TwoFullCalls(c)
    ensures AnswersOf(TwoFullCalls(c), Run(c, map[], TwoFullCalls(c)), "k") == [true, true]
  {
    hide Scripted, Run;
    RunByKey(c, TwoFullCalls(c), "k");
    OneKey(Call("k", c.limit, 0), Call("k", c.limit, WindowSeconds(c) * SECOND), true, true);
  }

  lemma TwoFullCallsKept(c: Config)
    ensures Kept(TwoFullCalls(c), [true, true]) == TwoFullCalls(c)
    ensures GrantsOf(TwoFullCalls(c), [true, true]) ==
            (if c.limit > 0 then [Grant(0, c.limit), Grant(WindowSeconds(c) * SECOND, c.limit)] else [])
  {
    var a, b := Call("k", c.limit, 0), Call("k", c.limit, WindowSeconds(c) * SECOND);
    var none, nothing: seq<Event>, silent: seq<bool> := [true], [], [];
    assert [a, b][1..] == [b] && [b][1..] == nothing && [true, true][1..] == none && none[1..] == silent;
    WholeQuotient(WindowSeconds(c), SECOND);
    assert Kept([b], none) == [b] + Kept(nothing, silent) == [b];
    if c.limit > 0 {
      var last := [Grant(WindowSeconds(c) * SECOND, c.limit)];
      assert GrantsOf([b], none) == last + GrantsOf(nothing, silent) == last;
      assert GrantsOf([a, b], [true, true]) == [Grant(0, c.limit)] + GrantsOf([b], none);
    } else {
      assert GrantsOf([b], none) == [] + GrantsOf(nothing, silent) == [];
      assert GrantsOf([a, b], [true, true]) == [] + GrantsOf([b], none) == [];
    }
  }

  /** In less than the window, less than the limit is earned. */
  lemma EarnedBelow(c: Config, d: int)
    requires TokenLimiter(c) && 0 <= d < c.window
    ensures TB.Earned(Configured(c), d) < c.limit as real
  {
    var l, s, t := c.limit as real, TB.Seconds(c.window), TB.Seconds(d);
    assert s * SECOND as real == c.window as real && t * SECOND as real == d as real;
    assert t < s && s > 0.0;
    var r := l / s;
    assert r * s == l;
    if r <= 0.0 {
      TB.MulMonotone(r, 0.0, s);
    }
    StrictProduct(r, s - t);
    assert r * (s - t) == l - r * t;
    assert TB.Earned(Configured(c), d) == t * r;
  }

  /** At the exact times it does not, whatever the configuration: a new second counts in full however little of it has
      passed, so the script is full again when the real bucket is not. */
  lemma WholeSecondsRunAhead(c: Config)
    requires TokenConfig(c)
    ensures var events := [Call("k", c.limit, SECOND - 1), Call("k", c.limit, WindowSeconds(c) * SECOND)];
            && KeyRun(Forever(c), None, None, events) == [true, true]
            && KeyRun(TB.Forever(Configured(c)), None, None, events) == [true, false]
  {
    var l, w, rc := c.limit, WindowSeconds(c), Configured(c);
    var a, b := Call("k", l, SECOND - 1), Call("k", l, w * SECOND);
    TwoAnswers(Forever(c), None, a, b);
    TwoAnswers(TB.Forever(rc), None, a, b);
    WholeWindowRefills(l, w);
    assert KeyAllow(c, None, l, SECOND - 1) == (Some(Bucket(0, 0)), true);
    assert KeyAllow(c, Some(Bucket(0, 0)), l, w * SECOND).1;
    var x := TB.TokenData(0.0, SECOND - 1);
    assert TB.KeyAllow(rc, None, l, SECOND - 1) == (Some(x), true);
    EarnedBelow(c, w * SECOND - (SECOND - 1));
    assert !TB.KeyAllow(rc, Some(x), l, w * SECOND).1;
  }

  lemma WholeWindowRefills(l: int, w: int)
    requires w > 0
    ensures w * SECOND / SECOND == w && w * l / w == l
  {
    WholeQuotient(w, SECOND);
    assert w * l == l * w;
    WholeQuotient(l, w);
  }

  lemma WholeQuotient(x: int, w: int)
    requires w > 0
    ensures x * w / w == x
  {
    assert w * x == x * w;
    DivAtLeast(x, x * w, w);
    DivAtLeast(x + 1, x * w, w);
  }

  lemma StrictProduct(x: real, y: real)
    requires x > 0.0 && y > 0.0
    ensures x * y > 0.0
  {
  }

  // ----- The bound over whole runs -----

  function Rounded(log: seq<Grant>): (r: seq<Grant>)
    ensures |r| == |log|
  {
    seq(|log|, i requires 0 <= i < |log| => Grant(OnSecond(log[i].time), log[i].n))
  }

  lemma KeptCall(events: seq<Event>, answers: seq<bool>)
    requires |answers| == |events| > 0 && events[0].Call?
    ensures var e, log := events[0], GrantsOf(events[1..], answers[1..]);
            && Kept(events, answers) ==
               (if answers[0] then [Call(e.key, e.n, OnSecond(e.now))] else []) + Kept(events[1..], answers[1..])
            && GrantsOf(events, answers) == (if answers[0] && e.n > 0 then [Grant(e.now, e.n)] else []) + log
  {
    hide OnSecond;
  }

  lemma RoundedCons(g: Grant, log: seq<Grant>)
    ensures Rounded([g] + log) == [Grant(OnSecond(g.time), g.n)] + Rounded(log)
  {
    hide OnSecond;
  }

  lemma AllTrueCons(e: Event, rest: seq<Event>)
    ensures AllTrue(|[e] + rest|)[0] && AllTrue(|[e] + rest|)[1..] == AllTrue(|rest|) && ([e] + rest)[1..] == rest
  {
  }

  lemma {:induction false} KeptGrants(events: seq<Event>, answers: seq<bool>)
    requires |answers| == |events| && NoResets(events)
    ensures var kept := Kept(events, answers);
            GrantsOf(kept, AllTrue(|kept|)) == Rounded(GrantsOf(events, answers)) && NoResets(kept)
  {
    if events != [] {
      var e := events[0];
      assert e in events;
      KeptGrants(events[1..], answers[1..]);
      KeptCall(events, answers);
      var rest, log := Kept(events[1..], answers[1..]), GrantsOf(events[1..], answers[1..]);
      var e' := Call(e.key, e.n, OnSecond(e.now));
      AllTrueCons(e', rest);
      RoundedCons(Grant(e.now, if e.n > 0 then e.n else 0), log);
      hide Rounded, OnSecond, AllTrue, Kept;
      assert [] + rest == rest && [] + log == log && [] + Rounded(log) == Rounded(log);
      assert answers[0] ==> Kept(events, answers) == [e'] + rest;
      assert !answers[0] ==> Kept(events, answers) == rest;
    }
  }

  lemma {:induction false} KeptTimed(events: seq<Event>, answers: seq<bool>, start: int)
    requires |answers| == |events| && Timed(events, start)
    ensures Timed(Kept(events, answers), OnSecond(start))
  {
    if events != [] {
      TimedTail(events, start);
      KeptTimed(events[1..], answers[1..], events[0].now);
      WholeSeconds(start, events[0].now);
    }
  }

  lemma {:induction false} RoundedTotal(log: seq<Grant>, t1: int, t2: int)
    ensures Total(log, t1, t2) <= Total(Rounded(log), OnSecond(t1), OnSecond(t2))
  {
    if log != [] {
      var init := log[..|log| - 1];
      RoundedTotal(init, t1, t2);
      assert Rounded(log)[..|log| - 1] == Rounded(init);
      var g := log[|log| - 1];
      if t1 <= g.time <= t2 {
        WholeSeconds(t1, g.time);
        WholeSeconds(g.time, t2);
      }
    }
  }

  /** The limit and the whole tokens earned in `s` seconds. */
  function Allowance(limit: int, s: int, w: int): int
    requires w > 0
  {
    limit + limit * s / w
  }

  /** Safety of the token script over whole runs: between t1 and t2 a key that is not reset is granted at most the limit
      and the whole tokens that the cut window earns in the seconds between them. */
  lemma CutWindowSafety(c: Config, start: int, events: seq<Event>, key: string, t1: int, t2: int)
    requires TokenConfig(c) && Timed(events, start) && NoResets(EventsOf(events, key)) && t1 <= t2
    ensures Total(GrantsOf(EventsOf(events, key), AnswersOf(events, Run(c, map[], events), key)), t1, t2)
            <= Allowance(c.limit, t2 / SECOND - t1 / SECOND, WindowSeconds(c))
  {
    hide *;
    RealGood(c);
    var mine, answers := EventsOf(events, key), AnswersOf(events, Run(c, map[], events), key);
    var kept, rc, log := Kept(mine, answers), CutConfig(c), GrantsOf(mine, answers);
    ScriptRefinesCutBucket(c, start, events, key);
    EventsOfTimed(events, key, start);
    KeptTimed(mine, answers, start);
    KeptGrants(mine, answers);
    TB.StartAccounted(rc, OnSecond(start));
    TB.KeyRunAccounted(rc, [], None, OnSecond(start), kept);
    assert [] + Rounded(log) == Rounded(log);
    var s := OnSeconds(t1, t2);
    PacedBound(c, log, t1, t2, s);
  }

  /** In every interleaving, between t1 and t2 a key that is not reset is granted at most the limit and the whole tokens
      earned at rate limit/window in the seconds between them. */
  ghost predicate KeepsBound(c: Config)
    requires c.window > 0
  {
    forall start, events, key, t1, t2 :: Timed(events, start) && NoResets(EventsOf(events, key)) && t1 <= t2 ==>
      Total(GrantsOf(EventsOf(events, key), AnswersOf(events, Run(c, map[], events), key)), t1, t2)
      <= Allowance(c.limit, (t2 / SECOND - t1 / SECOND) * SECOND, c.window)
  }

  /** The bound of the configured rate holds if and only if the window is a number of whole seconds. */
  lemma ScriptSafety(c: Config)
    requires TokenLimiter(c)
    ensures KeepsBound(c) <==> c.window % SECOND == 0
  {
    if c.window % SECOND == 0 {
      assert TokenConfig(c) && c.window == WindowSeconds(c) * SECOND;
      forall start, events, key, t1, t2 | Timed(events, start) && NoResets(EventsOf(events, key)) && t1 <= t2
        ensures Total(GrantsOf(EventsOf(events, key), AnswersOf(events, Run(c, map[], events), key)), t1, t2)
                <= Allowance(c.limit, (t2 / SECOND - t1 / SECOND) * SECOND, c.window)
      {
        CutWindowSafety(c, start, events, key, t1, t2);
        SameAllowance(c.limit, t2 / SECOND - t1 / SECOND, WindowSeconds(c));
      }
    } else {
      TwoFullCallsExceed(c);
    }
  }

  lemma SameAllowance(limit: int, s: int, w: int)
    requires w > 0
    ensures Allowance(limit, s * SECOND, w * SECOND) == Allowance(limit, s, w)
  {
    var a, q := limit * s, limit * s / w;
    assert limit * (s * SECOND) == a * SECOND;
    DivBounds(a, w);
    MulMonotone(SECOND, w * q, a);
    MulMonotone(SECOND, a + 1, w * q + w);
    Factors(SECOND, w, q);
    Factors(SECOND, w, q + 1);
    assert w * (q + 1) == w * q + w;
    DivAtLeast(q, a * SECOND, w * SECOND);
    DivAtLeast(q + 1, a * SECOND, w * SECOND);
  }

  lemma Factors(k: int, w: int, q: int)
    ensures k * (w * q) == w * k * q
  {
  }

  lemma TwoFullCallsExceed(c: Config)
    requires TokenLimiter(c) && c.window % SECOND != 0
    ensures !KeepsBound(c)
  {
    var events, w := TwoFullCalls(c), WindowSeconds(c);
    FractionalWindowRunsAhead(c);
    TwoFullCallsAnswers(c);
    TwoFullCallsKept(c);
    var log := [Grant(0, c.limit), Grant(w * SECOND, c.limit)];
    WholeQuotient(w, SECOND);
    TwoFullGrants(c, log);
    hide WindowSeconds, Allowance, TokenLimiter;
    assert Timed(events, 0) && NoResets(EventsOf(events, "k"));
    hide TwoFullCalls;
    assert GrantsOf(EventsOf(events, "k"), AnswersOf(events, Run(c, map[], events), "k")) == log;
    assert !(Total(log, 0, w * SECOND)
             <= Allowance(c.limit, (w * SECOND / SECOND - 0 / SECOND) * SECOND, c.window));
  }

  /** Twice the limit in less than a window is more than the rate allows. */
  lemma TwoFullGrants(c: Config, log: seq<Grant>)
    requires TokenLimiter(c) && c.window % SECOND != 0
    requires log == [Grant(0, c.limit), Grant(WindowSeconds(c) * SECOND, c.limit)]
    ensures Total(log, 0, WindowSeconds(c) * SECOND) > Allowance(c.limit, WindowSeconds(c) * SECOND, c.window)
  {
    var none: seq<Grant>, first, second, d := [], log[0], log[1], WindowSeconds(c) * SECOND;
    assert none + [first] == [first] && [first] + [second] == log;
    TotalAppend(none, first, 0, d);
    TotalAppend([first], second, 0, d);
    assert 0 <= d < c.window;
    hide WindowSeconds;
    MulMonotone(c.limit, d + 1, c.window);
    assert c.limit * (d + 1) == c.limit * d + c.limit && c.limit * c.window == c.window * c.limit;
    DivAtLeast(c.limit, c.limit * d, c.window);
  }

  lemma RealGood(c: Config)
    requires TokenConfig(c)
    ensures c.window >= SECOND && WindowSeconds(c) > 0 && TB.GoodConfig(CutConfig(c)) && CutConfig(c).burst == c.limit
  {
    var l, w := c.limit as real, WindowSeconds(c) as real;
    assert l / w * w == l && l > 0.0 && w > 0.0;
    if l / w <= 0.0 {
      TB.MulMonotone(l / w, 0.0, w);
    }
  }

  lemma PacedBound(c: Config, log: seq<Grant>, t1: int, t2: int, s: int)
    requires TokenConfig(c) && c.window >= SECOND && WindowSeconds(c) > 0 && CutConfig(c).burst == c.limit
    requires TB.Paced(CutConfig(c), Rounded(log))
    requires OnSecond(t1) <= OnSecond(t2) && OnSecond(t2) - OnSecond(t1) == s * SECOND
    ensures Total(log, t1, t2) <= Allowance(c.limit, s, WindowSeconds(c))
  {
    hide *;
    RoundedTotal(log, t1, t2);
    TB.PacedAt(CutConfig(c), Rounded(log), OnSecond(t1), OnSecond(t2));
    EarnedWhole(c, s);
    var total, earned := Total(Rounded(log), OnSecond(t1), OnSecond(t2)), TB.Earned(CutConfig(c), s * SECOND);
    PacedFloor(total, c.limit, s, WindowSeconds(c), earned);
  }

  lemma OnSeconds(t1: int, t2: int) returns (s: int)
    requires t1 <= t2
    ensures s == t2 / SECOND - t1 / SECOND
    ensures OnSecond(t1) <= OnSecond(t2) && OnSecond(t2) - OnSecond(t1) == s * SECOND
  {
    s := t2 / SECOND - t1 / SECOND;
  }

  lemma PacedFloor(total: int, limit: int, s: int, w: int, earned: real)
    requires w > 0 && total as real <= limit as real + earned && earned == (limit * s) as real / w as real
    ensures total <= Allowance(limit, s, w)
  {
    var a := limit * s;
    assert (total - limit) as real == total as real - limit as real;
    WholeBelow(total - limit, a, w);
  }

  lemma EarnedWhole(c: Config, s: int)
    requires TokenConfig(c)
    ensures TB.Earned(CutConfig(c), s * SECOND) == (c.limit * s) as real / WindowSeconds(c) as real
  {
    assert TB.Seconds(s * SECOND) == s as real;
    assert (c.limit * s) as real == s as real * c.limit as real;
    MulDiv(s as real, c.limit as real, WindowSeconds(c) as real);
  }

  /** A whole number below a quotient is below the rounded quotient. */
  lemma WholeBelow(x: int, a: int, w: int)
    requires w > 0 && x as real <= a as real / w as real
    ensures x <= a / w
  {
    MulReal(x as real, a as real, w as real);
    assert (w * x) as real == x as real * w as real;
    DivAtLeast(x, a, w);
  }

  lemma MulReal(x: real, a: real, w: real)
    requires w > 0.0 && x <= a / w
    ensures x * w <= a
  {
    var d := a / w;
    assert d * w == a;
    assert (d - x) * w >= 0.0;
  }
}
