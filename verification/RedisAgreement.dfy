/** The fixed-window and sliding-window scripts against the in-memory limiters, call for call. */
module RedisAgreement {
  import opened Arithmetic
  import opened Runs
  import opened Text
  import opened RedisLimiter
  import opened RedisServer
  import FW = FixedWindowLimiter
  import SW = SlidingWindowLimiter

  /** A configuration of one of the two window scripts, with a window of at least a second. */
  ghost predicate WindowConfig(c: Config, algorithm: string) {
    GoodConfig(c) && c.algorithm == algorithm && c.window >= SECOND
  }

  /** The script is told the whole window, as it is told whole seconds only. */
  ghost predicate WholeSeconds(c: Config) {
    c.window % SECOND == 0
  }

  // ----- Fixed windows -----

  /** The last millisecond in which a counter lives whose window, in memory, ends at `end`. */
  function Deadline(c: Config, end: int): int {
    (end - c.window) / MILLISECOND + 1000 * WindowSeconds(c)
  }

  /** A stored counter, expired or not, is the window that was opened last. */
  ghost predicate SameWindow(c: Config, e: Option<Entry>, w: Option<FW.Window>) {
    match e
    case None => w.None?
    case Some(x) =>
      && w.Some? && x.value == Counter(w.value.count) && 1 <= w.value.count <= c.limit
      && x.expireAt == Some(Deadline(c, w.value.end))
  }

  predicate OpenInMemory(w: Option<FW.Window>, now: int) {
    w.Some? && now <= w.value.end
  }

  predicate OpenOnServer(c: Config, w: Option<FW.Window>, now: int) {
    w.Some? && now / MILLISECOND <= Deadline(c, w.value.end)
  }

  /** A reset, or a call that the two fixed windows treat alike: for 1 to the limit while the window is open or over for
      both, or for more while it is open for both. */
  predicate Alike(c: Config, w: Option<FW.Window>, event: Event) {
    event.Call? ==>
      && event.n >= 1
      && OpenInMemory(w, event.now) == OpenOnServer(c, w, event.now)
      && (event.n > c.limit ==> OpenInMemory(w, event.now))
  }

  lemma WholeWindow(c: Config, now: int)
    requires c.window >= SECOND && WholeSeconds(c)
    ensures c.window == 1000 * WindowSeconds(c) * MILLISECOND
    ensures (now + c.window) / MILLISECOND == now / MILLISECOND + 1000 * WindowSeconds(c)
    ensures (now - c.window) / MILLISECOND == now / MILLISECOND - 1000 * WindowSeconds(c)
  {
  }

  /** Times in order are milliseconds in order. */
  lemma OpenAlike(now: int, end: int)
    ensures now / MILLISECOND <= end / MILLISECOND <==> now <= end || now / MILLISECOND == end / MILLISECOND
  {
  }

  /** The time is past the end of the window, but in the millisecond in which it ended. */
  predicate Late(w: Option<FW.Window>, now: int) {
    w.Some? && now > w.value.end && now / MILLISECOND == w.value.end / MILLISECOND
  }

  /** For a window of whole seconds, the window is open for one and over for the other just when it is late. */
  lemma OpenAlikeIffNotLate(c: Config, w: Option<FW.Window>, now: int)
    requires c.window >= SECOND && WholeSeconds(c)
    ensures OpenInMemory(w, now) == OpenOnServer(c, w, now) <==> !Late(w, now)
    ensures OpenInMemory(w, now) ==> OpenOnServer(c, w, now)
  {
    if w.Some? {
      WholeWindow(c, w.value.end);
      OpenAlike(now, w.value.end);
    }
    hide WindowSeconds;
  }

  /** The server never forgets a window that is open in memory if and only if it is told the whole window. */
  lemma NeverEarlyIff(c: Config)
    requires c.window >= SECOND
    ensures (forall w, now :: OpenInMemory(w, now) ==> OpenOnServer(c, w, now)) <==> WholeSeconds(c)
  {
    if WholeSeconds(c) {
      forall w, now ensures OpenInMemory(w, now) ==> OpenOnServer(c, w, now) {
        OpenAlikeIffNotLate(c, w, now);
      }
    } else {
      var w, now := Some(FW.Window(1, MILLISECOND - 1 + c.window)), WindowSeconds(c) * SECOND + MILLISECOND;
      assert OpenInMemory(w, now) && !OpenOnServer(c, w, now);
    }
  }

  /** One event: script and in-memory window answer it alike and stay alike if and only if it is such a call or a
      reset. */
  lemma FixedStepExact(c: Config, e: Option<Entry>, w: Option<FW.Window>, event: Event)
    requires WindowConfig(c, "fixed_window") && SameWindow(c, e, w)
    ensures var m := FW.Config(c.limit, c.window);
            var (e', ok) := KeyStep(Scripted(c), None, e, event);
            var (w', ok') := KeyStep(FW.Forever(m), None, w, event);
            ok == ok' && SameWindow(c, e', w') <==> Alike(c, w, event)
  {
    assert WindowSeconds(c) >= 1;
    hide WindowSeconds;
    assert (event.now + c.window) - c.window == event.now;
  }

  /** On one state, script and in-memory window answer every next call for 1 to the limit alike if and only if the
      window is open or over for both. */
  lemma FixedNextCallExact(c: Config, e: Option<Entry>, w: Option<FW.Window>, now: int)
    requires WindowConfig(c, "fixed_window") && SameWindow(c, e, w)
    ensures (forall n {:trigger AllowEntry(c, e, n, now)} :: 1 <= n <= c.limit ==>
               (AllowEntry(c, e, n, now).1 == Ok(true) <==> FW.KeyAllow(FW.Config(c.limit, c.window), w, n, now).1))
            <==> OpenInMemory(w, now) == OpenOnServer(c, w, now)
  {
    assert WindowSeconds(c) >= 1;
    hide WindowSeconds;
    if OpenInMemory(w, now) != OpenOnServer(c, w, now) {
      assert (AllowEntry(c, e, c.limit, now).1 == Ok(true)) !=
             FW.KeyAllow(FW.Config(c.limit, c.window), w, c.limit, now).1;
    }
  }

  /** Every event of the run is one that the two treat alike. */
  ghost predicate AlikeThroughout(c: Config, w: Option<FW.Window>, events: seq<Event>)
    decreases |events|
  {
    events == [] ||
    (Alike(c, w, events[0]) &&
     AlikeThroughout(c, KeyStep(FW.Forever(FW.Config(c.limit, c.window)), None, w, events[0]).0, events[1..]))
  }

  lemma {:induction false} FixedRun(c: Config, e: Option<Entry>, w: Option<FW.Window>, events: seq<Event>)
    requires WindowConfig(c, "fixed_window") && SameWindow(c, e, w) && AlikeThroughout(c, w, events)
    ensures KeyRun(Scripted(c), None, e, events) == KeyRun(FW.Forever(FW.Config(c.limit, c.window)), None, w, events)
    decreases |events|
  {
    if events != [] {
      var m := FW.Config(c.limit, c.window);
      FixedStepExact(c, e, w, events[0]);
      hide SameWindow, Scripted, FW.Forever, Alike, WindowConfig;
      FixedRun(c, KeyStep(Scripted(c), None, e, events[0]).0, KeyStep(FW.Forever(m), None, w, events[0]).0,
               events[1..]);
    }
  }

  /** The fixed-window script and the in-memory fixed window give the same decisions on a key whose calls are alike. */
  lemma FixedWindowsAgree(c: Config, start: int, events: seq<Event>, key: string)
    requires WindowConfig(c, "fixed_window") && c.window <= DAY
    requires Timed(events, start) && AlikeThroughout(c, None, EventsOf(events, key))
    ensures AnswersOf(events, Run(c, map[], events), key) ==
            AnswersOf(events, FW.Run(FW.Config(c.limit, c.window), FW.State(map[], start), events), key)
  {
    EventsOfTimed(events, key, start);
    RunByKey(c, events, key);
    FW.KeyAlone(FW.Config(c.limit, c.window), start, events, key);
    FixedRun(c, None, None, EventsOf(events, key));
  }

  /** Calls for 1 to the limit at whole milliseconds are alike when the window is one of whole seconds. */
  lemma {:induction false} WholeMillisecondsAlike(c: Config, w: Option<FW.Window>, events: seq<Event>)
    requires WindowConfig(c, "fixed_window") && WholeSeconds(c) && (w.Some? ==> w.value.end % MILLISECOND == 0)
    requires forall e :: e in events ==> e.now % MILLISECOND == 0 && (e.Call? ==> 1 <= e.n <= c.limit)
    ensures AlikeThroughout(c, w, events)
    decreases |events|
  {
    if events != [] {
      assert events[0] in events;
      WholeWindow(c, events[0].now);
      OpenAlikeIffNotLate(c, w, events[0].now);
      var w' := KeyStep(FW.Forever(FW.Config(c.limit, c.window)), None, w, events[0]).0;
      assert w'.Some? ==> w'.value.end % MILLISECOND == 0;
      hide KeyStep, WindowConfig;
      WholeMillisecondsAlike(c, w', events[1..]);
    }
  }

  /** A late call: the in-memory window is over, the script's lives on to the end of the millisecond. */
  lemma LateCallDiffers(c: Config)
    requires WindowConfig(c, "fixed_window") && WholeSeconds(c)
    ensures var events := [Call("k", c.limit, MILLISECOND / 2), Call("k", c.limit, c.window + MILLISECOND / 2 + 1)];
            && KeyRun(FW.Forever(FW.Config(c.limit, c.window)), None, None, events) == [true, true]
            && KeyRun(Scripted(c), None, None, events) == [true, false]
  {
    var l, m, half := c.limit, FW.Config(c.limit, c.window), MILLISECOND / 2;
    var a, b := Call("k", l, half), Call("k", l, c.window + half + 1);
    WholeWindow(c, half);
    WholeWindow(c, half + 1);
    TwoAnswers(FW.Forever(m), None, a, b);
    TwoAnswers(Scripted(c), None, a, b);
    var full := Some(Entry(Counter(l), Some(half / MILLISECOND + 1000 * WindowSeconds(c))));
    assert AllowEntry(c, None, l, half) == (full, Ok(true));
    assert AllowEntry(c, full, l, c.window + half + 1).1 == Ok(false);
    assert FW.KeyAllow(m, None, l, half) == (Some(FW.Window(l, half + c.window)), true);
  }

  /** An early call: the part of the window that is cut off leaves it open in memory when it is over on the server. */
  lemma EarlyCallDiffers(c: Config)
    requires WindowConfig(c, "fixed_window") && !WholeSeconds(c)
    ensures var events := [Call("k", c.limit, MILLISECOND - 1),
                           Call("k", c.limit, WindowSeconds(c) * SECOND + MILLISECOND)];
            && KeyRun(FW.Forever(FW.Config(c.limit, c.window)), None, None, events) == [true, false]
            && KeyRun(Scripted(c), None, None, events) == [true, true]
  {
    var l, w, m := c.limit, WindowSeconds(c), FW.Config(c.limit, c.window);
    var a, b := Call("k", l, MILLISECOND - 1), Call("k", l, w * SECOND + MILLISECOND);
    assert w >= 1 && w * SECOND < c.window && (w * SECOND + MILLISECOND) / MILLISECOND == 1000 * w + 1;
    hide WindowSeconds;
    TwoAnswers(FW.Forever(m), None, a, b);
    TwoAnswers(Scripted(c), None, a, b);
    var full := Some(Entry(Counter(l), Some(1000 * w)));
    assert AllowEntry(c, None, l, MILLISECOND - 1) == (full, Ok(true));
    assert AllowEntry(c, full, l, w * SECOND + MILLISECOND).1 == Ok(true);
    assert FW.KeyAllow(m, None, l, MILLISECOND - 1) == (Some(FW.Window(l, MILLISECOND - 1 + c.window)), true);
    assert !FW.KeyAllow(m, Some(FW.Window(l, MILLISECOND - 1 + c.window)), l, w * SECOND + MILLISECOND).1;
  }

  /** A call for more than the limit is refused by both, but only the in-memory one opens a window for it. */
  lemma TooLargeOpensWindow(c: Config, n: int)
    requires WindowConfig(c, "fixed_window") && n > c.limit
    ensures var events := [Call("k", n, 0), Call("k", c.limit, c.window), Call("k", c.limit, c.window + MILLISECOND)];
            && KeyRun(FW.Forever(FW.Config(c.limit, c.window)), None, None, events) == [false, true, true]
            && KeyRun(Scripted(c), None, None, events) == [false, true, false]
  {
    var l, w, m := c.limit, c.window, FW.Config(c.limit, c.window);
    var e0, e1, e2 := Call("k", n, 0), Call("k", l, w), Call("k", l, w + MILLISECOND);
    assert [e0, e1, e2] == [e0] + [e1, e2] && [e1, e2] == [e1] + [e2] && [e2] == [e2] + [];
    var closed := Some(FW.Window(0, w));
    var full := Some(FW.Window(l, w));
    assert FW.KeyAllow(m, None, n, 0) == (closed, false);
    assert FW.KeyAllow(m, closed, l, w) == (full, true);
    assert FW.KeyAllow(m, full, l, w + MILLISECOND).1;
    KeyRunCons(FW.Forever(m), None, full, e2, []);
    KeyRunCons(FW.Forever(m), None, closed, e1, [e2]);
    KeyRunCons(FW.Forever(m), None, None, e0, [e1, e2]);
    TooLargeRefused(c, n);
  }

  lemma TooLargeRefused(c: Config, n: int)
    requires WindowConfig(c, "fixed_window") && n > c.limit
    ensures var events := [Call("k", n, 0), Call("k", c.limit, c.window), Call("k", c.limit, c.window + MILLISECOND)];
            KeyRun(Scripted(c), None, None, events) == [false, true, false]
  {
    var l, w := c.limit, c.window;
    var e0, e1, e2 := Call("k", n, 0), Call("k", l, w), Call("k", l, w + MILLISECOND);
    assert [e0, e1, e2] == [e0] + [e1, e2] && [e1, e2] == [e1] + [e2] && [e2] == [e2] + [];
    var full := Some(Entry(Counter(l), Some(w / MILLISECOND + 1000 * WindowSeconds(c))));
    assert AllowEntry(c, None, n, 0) == (None, Ok(false));
    assert AllowEntry(c, None, l, w) == (full, Ok(true));
    assert AllowEntry(c, full, l, w + MILLISECOND).1 == Ok(false);
    KeyRunCons(Scripted(c), None, full, e2, []);
    KeyRunCons(Scripted(c), None, None, e1, [e2]);
    KeyRunCons(Scripted(c), None, None, e0, [e1, e2]);
  }

  /** For both window scripts a call is granted exactly when it asks for no more than what remains. */
  lemma GrantedIffRemaining(c: Config, e: Option<Entry>, n: int, now: int)
    requires GoodConfig(c) && c.window >= SECOND && n >= 1
    requires c.algorithm in {"fixed_window", "sliding_window"}
    requires e.Some? ==> if c.algorithm == "fixed_window" then e.value.value.Counter? else e.value.value.Scored?
    ensures var (_, remaining) := RemainingEntry(c, e, now);
            remaining.Ok? && (AllowEntry(c, e, n, now).1 == Ok(true) <==> n <= remaining.value)
  {
  }

  // ----- Sliding windows -----

  /** The members of the complete history scored after `cutoff`. */
  function Scores(log: seq<Grant>, cutoff: int): set<Member> {
    if log == [] then {}
    else
      var g := log[|log| - 1];
      Scores(log[..|log| - 1], cutoff) +
        (if g.time / MILLISECOND > cutoff then Batch(g.time / MILLISECOND, g.n) else {})
  }

  function Cutoff(c: Config, now: int): int {
    now / MILLISECOND - WindowSeconds(c) * 1000
  }

  /** The script without removal or expiry: every member ever added, of which the recent ones count. */
  function ScoredAllow(c: Config, log: seq<Grant>, n: int, now: int): (seq<Grant>, bool) {
    if n <= 0 then (log, false)
    else
      var ok := |Scores(log, Cutoff(c, now))| + n <= c.limit;
      (Extended(log, n, now, ok), ok)
  }

  function ScoredForever(c: Config): Allow<seq<Grant>> {
    (log, n, now) => ScoredAllow(c, log, n, now)
  }

  lemma BatchSize(now: int, n: nat)
    ensures |Batch(now, n)| == n
    ensures forall m :: m in Batch(now, n) ==> m.score == now && 1 <= m.index <= n
  {
    if n == 0 {
      assert Batch(now, 0) == {};
    } else {
      BatchSize(now, n - 1);
      BatchGrows(now, n);
    }
  }

  /** Every grant lies between the start of time and `clock`. */
  ghost predicate Within(log: seq<Grant>, clock: int) {
    forall i :: 0 <= i < |log| ==> 0 <= log[i].time <= clock
  }

  /** What is scored after a later cutoff is what is left of what is scored after an earlier one. */
  lemma {:induction false} ScoresNewer(log: seq<Grant>, cutoff: int, later: int)
    requires cutoff <= later
    ensures forall m :: m in Scores(log, later) <==> m in Scores(log, cutoff) && m.score > later
    ensures forall m :: m in Scores(log, cutoff) ==> m.score > cutoff
  {
    if log != [] {
      ScoresNewer(log[..|log| - 1], cutoff, later);
      var g := log[|log| - 1];
      BatchSize(g.time / MILLISECOND, g.n);
    }
  }

  lemma {:induction false} ScoresWithin(log: seq<Grant>, clock: int, cutoff: int)
    requires Within(log, clock)
    ensures forall m :: m in Scores(log, cutoff) ==> 0 <= m.score <= clock / MILLISECOND
    ensures clock / MILLISECOND <= cutoff ==> Scores(log, cutoff) == {}
  {
    if log != [] {
      ScoresWithin(log[..|log| - 1], clock, cutoff);
      var g := log[|log| - 1];
      BatchSize(g.time / MILLISECOND, g.n);
      assert g.time / MILLISECOND <= clock / MILLISECOND;
    }
  }

  lemma ScoresAppend(log: seq<Grant>, g: Grant, cutoff: int)
    ensures Scores(log + [g], cutoff) ==
            Scores(log, cutoff) + (if g.time / MILLISECOND > cutoff then Batch(g.time / MILLISECOND, g.n) else {})
  {
    assert (log + [g])[..|log|] == log;
  }

  function Above(members: set<Member>, cutoff: int): set<Member> {
    set m | m in members && m.score > cutoff
  }

  /** A stored set has the recent members of the history, and outlives them by a window; an absent one has none left. */
  ghost predicate SameScores(c: Config, e: Option<Entry>, log: seq<Grant>, clock: int) {
    && Within(log, clock)
    && (e.Some? ==>
          && e.value.value.Scored? && (forall m :: m in e.value.value.members ==> m.score >= 0)
          && e.value.expireAt.Some?
          && forall i :: 0 <= i < |log| ==>
               log[i].time / MILLISECOND + 2000 * WindowSeconds(c) <= e.value.expireAt.value)
    && forall cutoff :: cutoff >= Cutoff(c, clock) ==> Above(MembersOf(e), cutoff) == Scores(log, cutoff)
  }

  lemma {:induction false} NoneScored(log: seq<Grant>, cutoff: int)
    requires forall i :: 0 <= i < |log| ==> log[i].time / MILLISECOND <= cutoff
    ensures Scores(log, cutoff) == {}
  {
    if log != [] {
      NoneScored(log[..|log| - 1], cutoff);
    }
  }

  lemma LaterSame(c: Config, e: Option<Entry>, log: seq<Grant>, clock: int, now: int)
    requires WindowConfig(c, "sliding_window") && SameScores(c, e, log, clock) && clock <= now
    ensures SameScores(c, e, log, now) && SameScores(c, Live(e, now), log, now)
  {
    hide Scores;
    assert Cutoff(c, clock) <= Cutoff(c, now);
    if Live(e, now) != e {
      forall cutoff | cutoff >= Cutoff(c, now) ensures Scores(log, cutoff) == {} {
        NoneScored(log, cutoff);
      }
    }
  }

  /** The script counts, and keeps, the recent members of the history. */
  lemma PrunedSame(c: Config, live: Option<Entry>, log: seq<Grant>, now: int)
    requires WindowConfig(c, "sliding_window") && SameScores(c, live, log, now)
    ensures MembersOf(Pruned(live, Cutoff(c, now))) == Scores(log, Cutoff(c, now))
    ensures SameScores(c, Pruned(live, Cutoff(c, now)), log, now)
  {
    hide Scores;
    var pruned := Pruned(live, Cutoff(c, now));
    assert Above(MembersOf(live), Cutoff(c, now)) == MembersOf(pruned);
    forall cutoff | cutoff >= Cutoff(c, now) ensures Above(MembersOf(pruned), cutoff) == Scores(log, cutoff) {
      assert Above(MembersOf(live), cutoff) == Scores(log, cutoff);
    }
  }

  lemma GrantSame(c: Config, log: seq<Grant>, n: int, now: int)
    requires WindowConfig(c, "sliding_window") && Within(log, now) && n >= 1 && now >= 0
    ensures SameScores(c,
                       Expire(Scored(Scores(log, Cutoff(c, now)) + Batch(now / MILLISECOND, n)), WindowSeconds(c) * 2,
                              now),
                       log + [Grant(now, n)], now)
  {
    var members := Scores(log, Cutoff(c, now)) + Batch(now / MILLISECOND, n);
    var log' := log + [Grant(now, n)];
    ScoresWithin(log, now, Cutoff(c, now));
    BatchSize(now / MILLISECOND, n);
    hide Scores, Batch, Above;
    forall cutoff | cutoff >= Cutoff(c, now) ensures Above(members, cutoff) == Scores(log', cutoff) {
      GrantAbove(log, n, now, Cutoff(c, now), cutoff);
    }
    forall i | 0 <= i < |log'| ensures log'[i].time / MILLISECOND <= now / MILLISECOND && 0 <= log'[i].time <= now {
      assert log'[i].time <= now;
    }
    assert forall m :: m in members ==> m.score >= 0;
  }

  lemma GrantAbove(log: seq<Grant>, n: int, now: int, cutoff: int, later: int)
    requires n >= 1 && cutoff <= later
    ensures Above(Scores(log, cutoff) + Batch(now / MILLISECOND, n), later) == Scores(log + [Grant(now, n)], later)
  {
    BatchSize(now / MILLISECOND, n);
    hide Scores, Batch;
    ScoresAppend(log, Grant(now, n), later);
    ScoresNewer(log, cutoff, later);
  }

  lemma ScoredStep(c: Config, e: Option<Entry>, log: seq<Grant>, clock: int, event: Event)
    requires WindowConfig(c, "sliding_window") && SameScores(c, e, log, clock) && 0 <= clock <= event.now
    ensures var (e', ok) := KeyStep(Scripted(c), None, e, event);
            var (log', ok') := KeyStep(ScoredForever(c), [], log, event);
            ok == ok' && SameScores(c, e', log', event.now)
  {
    LaterSame(c, e, log, clock, event.now);
    if event.Call? && event.n > 0 {
      PrunedSame(c, Live(e, event.now), log, event.now);
      GrantSame(c, log, event.n, event.now);
      hide SameScores, Scores, Batch, Pruned, Live, Expire;
      assert SameScores(c, Live(e, event.now), log, event.now);
      ScriptFinds(c, e, log, event.n, event.now);
    }
  }

  lemma ScriptFinds(c: Config, e: Option<Entry>, log: seq<Grant>, n: int, now: int)
    requires WindowConfig(c, "sliding_window") && SameScores(c, Live(e, now), log, now) && n > 0
    ensures var members := Scores(log, Cutoff(c, now));
            AllowEntry(c, e, n, now) ==
            if |members| + n <= c.limit
            then (Expire(Scored(members + Batch(now / MILLISECOND, n)), WindowSeconds(c) * 2, now), Ok(true))
            else (Pruned(Live(e, now), Cutoff(c, now)), Ok(false))
  {
    PrunedSame(c, Live(e, now), log, now);
    hide Scores, Batch, Live, Pruned;
  }

  lemma {:induction false} ScoredRun(c: Config, e: Option<Entry>, log: seq<Grant>, clock: int, events: seq<Event>)
    requires WindowConfig(c, "sliding_window") && SameScores(c, e, log, clock) && 0 <= clock && Timed(events, clock)
    ensures KeyRun(Scripted(c), None, e, events) == KeyRun(ScoredForever(c), [], log, events)
    decreases |events|
  {
    if events != [] {
      TimedTail(events, clock);
      ScoredStep(c, e, log, clock, events[0]);
      hide SameScores, Scripted, ScoredForever;
      ScoredRun(c, KeyStep(Scripted(c), None, e, events[0]).0, KeyStep(ScoredForever(c), [], log, events[0]).0,
                events[0].now, events[1..]);
    }
  }

  /** Exactly what the sliding script computes: in any interleaving, a call is granted when the members of the complete
      history, one for each index a millisecond has reached, leave room. Removal and expiry never change an answer. */
  lemma SlidingScriptCounts(c: Config, start: int, events: seq<Event>, key: string)
    requires WindowConfig(c, "sliding_window") && 0 <= start && Timed(events, start)
    ensures AnswersOf(events, Run(c, map[], events), key) == KeyRun(ScoredForever(c), [], [], EventsOf(events, key))
  {
    RunByKey(c, events, key);
    EventsOfTimed(events, key, start);
    assert SameScores(c, None, [], start);
    ScoredRun(c, None, [], start, EventsOf(events, key));
  }

  // ----- Members and units -----

  /** The units granted in milliseconds after `cutoff`. */
  function Recent(log: seq<Grant>, cutoff: int): nat {
    if log == [] then 0
    else
      var g := log[|log| - 1];
      Recent(log[..|log| - 1], cutoff) + (if g.time / MILLISECOND > cutoff then g.n else 0)
  }

  /** No two grants after `cutoff` share a millisecond. */
  ghost predicate DistinctAfter(log: seq<Grant>, cutoff: int) {
    forall i, k :: 0 <= i < k < |log| && log[i].time / MILLISECOND > cutoff && log[k].time / MILLISECOND > cutoff ==>
                     log[i].time / MILLISECOND != log[k].time / MILLISECOND
  }

  ghost predicate Positive(log: seq<Grant>) {
    forall i :: 0 <= i < |log| ==> log[i].n >= 1
  }

  lemma UnionSize<T>(a: set<T>, b: set<T>)
    ensures |a + b| == |a| + |b| - |a * b|
  {
  }

  /** The members of one millisecond are there exactly when a grant was made in it. */
  lemma {:induction false} ScoredAt(log: seq<Grant>, cutoff: int, t: int)
    requires Positive(log) && t > cutoff
    ensures Member(t, 1) in Scores(log, cutoff) <==> exists i :: 0 <= i < |log| && log[i].time / MILLISECOND == t
    ensures (exists m :: m in Scores(log, cutoff) && m.score == t) <==> Member(t, 1) in Scores(log, cutoff)
  {
    if log != [] {
      var init, g := log[..|log| - 1], log[|log| - 1];
      ScoredAt(init, cutoff, t);
      BatchSize(g.time / MILLISECOND, g.n);
      assert Member(g.time / MILLISECOND, 1) in Batch(g.time / MILLISECOND, g.n);
      forall i | 0 <= i < |init| && init[i].time / MILLISECOND == t
        ensures log[i].time / MILLISECOND == t
      {
      }
    }
  }

  /** The set has a member for every granted unit exactly when no two grants in the window share a millisecond.
      Otherwise it has fewer. */
  lemma {:induction false} CountsUnitsIffDistinct(log: seq<Grant>, cutoff: int)
    requires Positive(log)
    ensures |Scores(log, cutoff)| <= Recent(log, cutoff)
    ensures |Scores(log, cutoff)| == Recent(log, cutoff) <==> DistinctAfter(log, cutoff)
  {
    if log != [] {
      var init, g := log[..|log| - 1], log[|log| - 1];
      var t := g.time / MILLISECOND;
      CountsUnitsIffDistinct(init, cutoff);
      if t > cutoff {
        var a, b := Scores(init, cutoff), Batch(t, g.n);
        BatchSize(t, g.n);
        ScoredAt(init, cutoff, t);
        UnionSize(a, b);
        if Member(t, 1) in a {
          assert Member(t, 1) in a * b;
          var i :| 0 <= i < |init| && init[i].time / MILLISECOND == t;
          assert log[i].time / MILLISECOND == t;
          assert !DistinctAfter(log, cutoff);
        } else {
          assert a * b == {};
          forall i | 0 <= i < |init| ensures log[i].time / MILLISECOND != t {
            assert init[i].time / MILLISECOND != t;
          }
        }
      }
      DistinctInit(log, cutoff);
    }
  }

  lemma DistinctInit(log: seq<Grant>, cutoff: int)
    requires log != []
    ensures var init, t := log[..|log| - 1], log[|log| - 1].time / MILLISECOND;
            DistinctAfter(log, cutoff) <==>
            DistinctAfter(init, cutoff)
              && (t > cutoff ==> forall i :: 0 <= i < |init| ==> init[i].time / MILLISECOND != t)
  {
    var init, t := log[..|log| - 1], log[|log| - 1].time / MILLISECOND;
    if DistinctAfter(log, cutoff) {
      forall i, k | 0 <= i < k < |init| && init[i].time / MILLISECOND > cutoff && init[k].time / MILLISECOND > cutoff
        ensures init[i].time / MILLISECOND != init[k].time / MILLISECOND
      {
        assert log[i] == init[i] && log[k] == init[k];
      }
      if t > cutoff {
        forall i | 0 <= i < |init| ensures init[i].time / MILLISECOND != t {
          assert log[i] == init[i];
        }
      }
    }
  }

  // ----- Against the in-memory sliding window -----

  /** A grant that is still in the window, but in a millisecond the script has already cut off. */
  predicate Straddles(c: Config, g: Grant, now: int) {
    g.time > now - c.window && g.time / MILLISECOND <= Cutoff(c, now)
  }

  ghost predicate NoneStraddles(c: Config, log: seq<Grant>, now: int) {
    forall i :: 0 <= i < |log| ==> !Straddles(c, log[i], now)
  }

  /** What the script counts is in the window. */
  lemma RecentIsInside(c: Config, time: int, now: int)
    requires c.window >= SECOND
    ensures time / MILLISECOND > Cutoff(c, now) ==> time > now - c.window
  {
  }

  /** For a window of whole seconds a straddling grant sits in the very millisecond in which the window starts. */
  lemma StraddlesAtStart(c: Config, g: Grant, now: int)
    requires c.window >= SECOND && WholeSeconds(c) && Straddles(c, g, now)
    ensures g.time / MILLISECOND == Cutoff(c, now) == (now - c.window) / MILLISECOND
  {
    WholeWindow(c, now);
    hide WindowSeconds;
  }

  /** Counted by milliseconds the window holds no more than it does, and as much exactly when no grant straddles its
      start. */
  lemma {:induction false} RecentIsTotalIff(c: Config, log: seq<Grant>, now: int)
    requires WindowConfig(c, "sliding_window") && Until(log, now) && Positive(log)
    ensures Recent(log, Cutoff(c, now)) <= Total(log, now - c.window + 1, now)
    ensures Recent(log, Cutoff(c, now)) == Total(log, now - c.window + 1, now) <==> NoneStraddles(c, log, now)
  {
    if log != [] {
      var init, g := log[..|log| - 1], log[|log| - 1];
      RecentIsTotalIff(c, init, now);
      RecentIsInside(c, g.time, now);
      hide WindowSeconds, WindowConfig, Cutoff;
      assert NoneStraddles(c, log, now) <==> NoneStraddles(c, init, now) && !Straddles(c, g, now) by {
        assert log == init + [g];
      }
    }
  }

  function Memory(c: Config): SW.Config {
    SW.Config(c.limit, c.window)
  }

  /** No two grants in the window share a millisecond, and none straddles its start. */
  ghost predicate Countable(c: Config, log: seq<Grant>, now: int) {
    DistinctAfter(log, Cutoff(c, now)) && NoneStraddles(c, log, now)
  }

  lemma CountsTotalIff(c: Config, log: seq<Grant>, now: int)
    requires WindowConfig(c, "sliding_window") && Until(log, now) && Positive(log)
    ensures |Scores(log, Cutoff(c, now))| <= Total(log, now - c.window + 1, now)
    ensures |Scores(log, Cutoff(c, now))| == Total(log, now - c.window + 1, now) <==> Countable(c, log, now)
  {
    hide Scores, Recent, Total, Cutoff, DistinctAfter, NoneStraddles, WindowConfig;
    RecentIsTotalIff(c, log, now);
    CountsUnitsIffDistinct(log, Cutoff(c, now));
  }

  /** On one history, with no more than the limit in the window, the script answers the next call as the in-memory
      window does, whatever it asks for, exactly when no two grants in the window share a millisecond and none straddles
      its start. */
  lemma NextCallAgreesIff(c: Config, log: seq<Grant>, now: int)
    requires WindowConfig(c, "sliding_window") && Until(log, now) && Positive(log)
    requires Total(log, now - c.window + 1, now) <= c.limit
    ensures (forall n :: n >= 1 ==> ScoredAllow(c, log, n, now).1 == SW.HistoryAllow(Memory(c), log, n, now).1)
            <==> Countable(c, log, now)
  {
    CountsTotalIff(c, log, now);
    hide Scores, Total, Countable, Cutoff;
    if |Scores(log, Cutoff(c, now))| != Total(log, now - c.window + 1, now) {
      var n := c.limit - |Scores(log, Cutoff(c, now))|;
      assert ScoredAllow(c, log, n, now).1 && !SW.HistoryAllow(Memory(c), log, n, now).1;
    }
  }

  function History(c: Config): Allow<seq<Grant>> {
    (log, n, now) => SW.HistoryAllow(Memory(c), log, n, now)
  }

  /** Every call of the run, for one unit or more, finds a countable history. */
  ghost predicate CountableThroughout(c: Config, log: seq<Grant>, events: seq<Event>)
    decreases |events|
  {
    events == [] ||
    ((events[0].Call? ==> events[0].n >= 1 && Countable(c, log, events[0].now)) &&
     CountableThroughout(c, KeyStep(History(c), [], log, events[0]).0, events[1..]))
  }

  lemma CountableCall(c: Config, log: seq<Grant>, n: int, now: int)
    requires WindowConfig(c, "sliding_window") && Until(log, now) && Positive(log)
    requires Countable(c, log, now) && n >= 1
    ensures ScoredAllow(c, log, n, now) == SW.HistoryAllow(Memory(c), log, n, now)
  {
    CountsTotalIff(c, log, now);
    hide Scores, Total, Countable, Cutoff;
  }

  lemma HistoryStep(c: Config, log: seq<Grant>, e: Event, clock: int)
    requires Until(log, clock) && Positive(log) && clock <= e.now
    ensures Until(log, e.now)
    ensures var log' := KeyStep(History(c), [], log, e).0; Until(log', e.now) && Positive(log')
  {
    hide Total;
  }

  lemma {:induction false} CountableRun(c: Config, log: seq<Grant>, clock: int, events: seq<Event>)
    requires WindowConfig(c, "sliding_window") && Until(log, clock) && Positive(log)
    requires Timed(events, clock) && CountableThroughout(c, log, events)
    ensures KeyRun(ScoredForever(c), [], log, events) == KeyRun(History(c), [], log, events)
    decreases |events|
  {
    if events != [] {
      var e := events[0];
      TimedTail(events, clock);
      HistoryStep(c, log, e, clock);
      hide Total, Recent, Scores, ScoredAllow, SW.HistoryAllow, Countable, WindowConfig, Until, Positive;
      if e.Call? {
        CountableCall(c, log, e.n, e.now);
      }
      CountableRun(c, KeyStep(History(c), [], log, e).0, e.now, events[1..]);
    }
  }

  /** The sliding-window script and the in-memory sliding window give the same decisions on a key whose calls find
      countable histories. */
  lemma SlidingWindowsAgree(c: Config, start: int, events: seq<Event>, key: string)
    requires WindowConfig(c, "sliding_window") && c.window <= DAY
    requires 0 <= start && Timed(events, start) && CountableThroughout(c, [], EventsOf(events, key))
    ensures AnswersOf(events, Run(c, map[], events), key) ==
            AnswersOf(events, SW.Run(Memory(c), SW.State(map[], start), events), key)
  {
    hide CountableThroughout;
    SlidingScriptCounts(c, start, events, key);
    SW.RefinesHistory(Memory(c), start, events, key);
    EventsOfTimed(events, key, start);
    CountableRun(c, [], start, EventsOf(events, key));
  }

  /** No two grants share a millisecond. */
  ghost predicate Spaced(log: seq<Grant>) {
    forall i, k :: 0 <= i < k < |log| ==> log[i].time / MILLISECOND != log[k].time / MILLISECOND
  }

  /** No grant straddles the start of a window that ends at a call. */
  ghost predicate Apart(c: Config, log: seq<Grant>, events: seq<Event>) {
    forall e :: e in events && e.Call? ==> NoneStraddles(c, log, e.now)
  }

  lemma SpacedInit(a: seq<Grant>, b: seq<Grant>, cutoff: int)
    requires Spaced(a + b)
    ensures DistinctAfter(a, cutoff)
  {
    forall i, k | 0 <= i < k < |a| ensures a[i].time / MILLISECOND != a[k].time / MILLISECOND {
      assert (a + b)[i] == a[i] && (a + b)[k] == a[k];
    }
  }

  lemma StraddlesInit(c: Config, a: seq<Grant>, b: seq<Grant>, now: int)
    requires NoneStraddles(c, a + b, now)
    ensures NoneStraddles(c, a, now)
  {
    forall i | 0 <= i < |a| ensures !Straddles(c, a[i], now) {
      assert (a + b)[i] == a[i];
    }
  }

  lemma TailParts(c: Config, a: seq<Grant>, b: seq<Grant>, events: seq<Event>)
    requires Spaced(a + b) && Apart(c, a + b, events)
    ensures Spaced(b) && Apart(c, b, events)
  {
    hide Straddles;
    assert forall i :: 0 <= i < |b| ==> (a + b)[|a| + i] == b[i];
    forall i, k | 0 <= i < k < |b| ensures b[i].time / MILLISECOND != b[k].time / MILLISECOND {
      assert (a + b)[|a| + i] == b[i] && (a + b)[|a| + k] == b[k];
    }
  }

  /** A caller's condition: the granted calls of the key have distinct milliseconds, and no call comes, to the
      millisecond, a window after a granted one while that is still in the window. */
  lemma {:induction false} SpacedIsCountable(c: Config, log: seq<Grant>, events: seq<Event>)
    requires forall e :: e in events && e.Call? ==> e.n >= 1
    requires var all := log + GrantsOf(events, KeyRun(History(c), [], log, events));
             Spaced(all) && Apart(c, all, events)
    ensures CountableThroughout(c, log, events)
    decreases |events|
  {
    if events != [] {
      var e := events[0];
      assert e in events;
      var answers := KeyRun(History(c), [], log, events);
      var log' := KeyStep(History(c), [], log, e).0;
      var grants := GrantsOf(events, answers);
      assert answers[1..] == KeyRun(History(c), [], log', events[1..])
             && answers[0] == KeyStep(History(c), [], log, e).1;
      hide Total, Cutoff;
      assert Apart(c, log + grants, events[1..]);
      if e.Call? {
        SpacedInit(log, grants, Cutoff(c, e.now));
        StraddlesInit(c, log, grants, e.now);
        GrantsCons(log, events, answers);
      } else {
        var rest := GrantsOf(events[1..], answers[1..]);
        assert grants == [] + rest == rest;
        TailParts(c, log, rest, events[1..]);
      }
      hide GrantsOf, Spaced, DistinctAfter, NoneStraddles, SW.HistoryAllow;
      SpacedIsCountable(c, log', events[1..]);
    }
  }

  /** A grant that straddles, whatever the window: the in-memory window still counts it, the script does not. */
  lemma StraddlingGrantDiffers(c: Config)
    requires WindowConfig(c, "sliding_window")
    ensures var events := [Call("k", c.limit, MILLISECOND / 2 + 1),
                           Call("k", c.limit, WindowSeconds(c) * SECOND + MILLISECOND / 2)];
            && KeyRun(History(c), [], [], events) == [true, false]
            && KeyRun(ScoredForever(c), [], [], events) == [true, true]
  {
    var half := MILLISECOND / 2;
    var a, b := Call("k", c.limit, half + 1), Call("k", c.limit, WindowSeconds(c) * SECOND + half);
    TwoAnswers(History(c), [], a, b);
    TwoAnswers(ScoredForever(c), [], a, b);
    FirstGrant(c, half + 1);
    StraddlingCall(c);
    hide SW.HistoryAllow, ScoredAllow, WindowConfig;
  }

  lemma FirstGrant(c: Config, now: int)
    requires GoodConfig(c)
    ensures SW.HistoryAllow(Memory(c), [], c.limit, now) == ([Grant(now, c.limit)], true)
    ensures ScoredAllow(c, [], c.limit, now) == ([Grant(now, c.limit)], true)
  {
    var none: seq<Grant> := [];
    assert none + [Grant(now, c.limit)] == [Grant(now, c.limit)];
    assert Scores(none, Cutoff(c, now)) == {};
  }

  lemma HalfMillisecond(w: nat)
    ensures (w * SECOND + MILLISECOND / 2) / MILLISECOND == w * 1000
  {
    DivAtLeast(w * 1000, w * SECOND + MILLISECOND / 2, MILLISECOND);
    DivAtLeast(w * 1000 + 1, w * SECOND + MILLISECOND / 2, MILLISECOND);
  }

  lemma StraddlingCall(c: Config)
    requires WindowConfig(c, "sliding_window")
    ensures var log, now := [Grant(MILLISECOND / 2 + 1, c.limit)], WindowSeconds(c) * SECOND + MILLISECOND / 2;
            !SW.HistoryAllow(Memory(c), log, c.limit, now).1 && ScoredAllow(c, log, c.limit, now).1
  {
    var log, now := [Grant(MILLISECOND / 2 + 1, c.limit)], WindowSeconds(c) * SECOND + MILLISECOND / 2;
    HalfMillisecond(WindowSeconds(c));
    DivBounds(c.window, SECOND);
    assert now - c.window <= MILLISECOND / 2 && (MILLISECOND / 2 + 1) <= now;
    assert Cutoff(c, now) == 0 == (MILLISECOND / 2 + 1) / MILLISECOND;
    assert log[..0] == [];
    assert Scores(log, 0) == {} && Total(log, now - c.window + 1, now) == c.limit;
  }

  /** In one millisecond the script grants any number of single calls, as soon as the limit is two. */
  lemma SameMillisecondUnlimited(c: Config, now: int, k: nat)
    requires WindowConfig(c, "sliding_window") && now >= 0 && k >= 2
    ensures KeyRun(ScoredForever(c), [], [], seq(k, _ => Call("k", 1, now))) == seq(k, _ => true) <==> c.limit >= 2
  {
    SinglesRun(c, now, 0, k);
  }

  /** After `done` single calls the set has one member, or none if there were none. */
  lemma {:induction false} SinglesRun(c: Config, now: int, done: nat, k: nat)
    requires WindowConfig(c, "sliding_window") && now >= 0
    ensures c.limit >= 2 ==>
              KeyRun(ScoredForever(c), [], Singles(now, done), seq(k, _ => Call("k", 1, now))) == seq(k, _ => true)
    ensures c.limit < 2 && done + k >= 2 && k >= 1 ==>
              KeyRun(ScoredForever(c), [], Singles(now, done), seq(k, _ => Call("k", 1, now))) != seq(k, _ => true)
    decreases k
  {
    if k > 0 {
      var events := seq(k, _ => Call("k", 1, now));
      var log := Singles(now, done);
      SinglesScore(c, now, done);
      assert events == [Call("k", 1, now)] + seq(k - 1, _ => Call("k", 1, now));
      assert seq(k, _ => true) == [true] + seq(k - 1, _ => true);
      KeyRunCons(ScoredForever(c), [], log, Call("k", 1, now), seq(k - 1, _ => Call("k", 1, now)));
      if |Scores(log, Cutoff(c, now))| + 1 <= c.limit {
        assert Extended(log, 1, now, true) == Singles(now, done + 1);
        SinglesRun(c, now, done + 1, k - 1);
        assert KeyRun(ScoredForever(c), [], log, events)[1..] ==
               KeyRun(ScoredForever(c), [], Singles(now, done + 1), seq(k - 1, _ => Call("k", 1, now)));
        assert seq(k, _ => true)[1..] == seq(k - 1, _ => true);
      } else {
        assert !KeyRun(ScoredForever(c), [], log, events)[0] && seq(k, _ => true)[0];
      }
    }
  }

  function Singles(now: int, n: nat): seq<Grant> {
    seq(n, _ => Grant(now, 1))
  }

  lemma {:induction false} SinglesScore(c: Config, now: int, n: nat)
    requires WindowConfig(c, "sliding_window") && now >= 0
    ensures |Scores(Singles(now, n), Cutoff(c, now))| == if n == 0 then 0 else 1
    ensures n > 0 ==> Scores(Singles(now, n), Cutoff(c, now)) == {Member(now / MILLISECOND, 1)}
  {
    if n > 0 {
      SinglesScore(c, now, n - 1);
      assert Singles(now, n)[..n - 1] == Singles(now, n - 1);
      assert Batch(now / MILLISECOND, 1) == {Member(now / MILLISECOND, 1)};
    }
  }
}
