/** The in-memory fixed-window limiter. */
module FixedWindowLimiter {
  import opened Runs
  import opened Text

  datatype Config = Config(limit: int, windowSize: int)

  ghost predicate GoodConfig(c: Config) {
    c.limit >= 1 && c.windowSize >= SECOND
  }

  datatype WindowData = WindowData(count: int, windowEnd: int, lastAccess: int)

  datatype State = State(windows: map<string, WindowData>, lastCleanup: int)

  // ----- One call -----

  function Cleaned(windows: map<string, WindowData>, now: int): map<string, WindowData> {
    map k | k in windows && windows[k].lastAccess >= now - DAY :: windows[k]
  }

  function Housekeeping(st: State, now: int): State {
    if now - st.lastCleanup > HOUR then State(Cleaned(st.windows, now), now) else st
  }

  /** The window a call at `now` counts in: the open one, or a new one. */
  function Current(c: Config, w: Option<Window>, now: int): Window {
    if w.None? || now > w.value.end then Window(0, now + c.windowSize) else w.value
  }

  /** One key's window, without the access time that only cleanup looks at. */
  datatype Window = Window(count: int, end: int)

  function WindowOf(wd: WindowData): Window {
    Window(wd.count, wd.windowEnd)
  }

  function AllowStep(c: Config, st: State, key: string, n: int, now: int): (State, bool) {
    if n <= 0 then (st, true)
    else
      var st1 := Housekeeping(st, now);
      var w := Current(c, if key in st1.windows then Some(WindowOf(st1.windows[key])) else None, now);
      var ok := w.count < c.limit && w.count + n <= c.limit;
      (st1.(windows := st1.windows[key := WindowData(if ok then w.count + n else w.count, w.end, now)]), ok)
  }

  function RemainingAt(c: Config, st: State, key: string, now: int): int {
    if key !in st.windows || now > st.windows[key].windowEnd then c.limit else c.limit - st.windows[key].count
  }

  function Step(c: Config, st: State, e: Event): (State, bool) {
    match e
    case Call(key, n, now) => AllowStep(c, st, key, n, now)
    case Reset(key, _) => (st.(windows := st.windows - {key}), true)
  }

  function Run(c: Config, st: State, events: seq<Event>): (r: seq<bool>)
    ensures |r| == |events|
    decreases |events|
  {
    if events == [] then []
    else
      var (st', ok) := Step(c, st, events[0]);
      [ok] + Run(c, st', events[1..])
  }

  // ----- One key, never cleaned up -----

  function KeyAllow(c: Config, w: Option<Window>, n: int, now: int): (Option<Window>, bool) {
    if n <= 0 then (w, true)
    else
      var cur := Current(c, w, now);
      var ok := cur.count + n <= c.limit;
      (Some(if ok then Window(cur.count + n, cur.end) else cur), ok)
  }

  function Forever(c: Config): Allow<Option<Window>> {
    (w, n, now) => KeyAllow(c, w, n, now)
  }

  /** A stored window is the key's window; an absent one is closed. */
  ghost predicate SameWindow(c: Config, st: State, key: string, w: Option<Window>, clock: int) {
    if key in st.windows then
      && w == Some(WindowOf(st.windows[key])) && st.windows[key].lastAccess <= clock
      && st.windows[key].windowEnd <= st.windows[key].lastAccess + c.windowSize
    else w.None? || w.value.end < clock
  }

  ghost predicate Simulates(c: Config, st: State, ws: map<string, Option<Window>>, clock: int) {
    forall key :: SameWindow(c, st, key, StateOf(ws, key, None), clock)
  }

  lemma HousekeepingSame(c: Config, st: State, key: string, w: Option<Window>, clock: int, now: int)
    requires GoodConfig(c) && c.windowSize <= DAY && SameWindow(c, st, key, w, clock) && clock <= now
    ensures SameWindow(c, Housekeeping(st, now), key, w, now)
  {
  }

  lemma HousekeepingSimulates(c: Config, st: State, ws: map<string, Option<Window>>, clock: int, now: int)
    requires GoodConfig(c) && c.windowSize <= DAY && Simulates(c, st, ws, clock) && clock <= now
    ensures Simulates(c, Housekeeping(st, now), ws, now)
  {
    var st' := Housekeeping(st, now);
    forall key ensures SameWindow(c, st', key, StateOf(ws, key, None), now) {
      HousekeepingSame(c, st, key, StateOf(ws, key, None), clock, now);
    }
  }

  lemma StepSimulates(c: Config, st: State, ws: map<string, Option<Window>>, clock: int, e: Event)
    requires GoodConfig(c) && c.windowSize <= DAY && Simulates(c, st, ws, clock) && clock <= e.now
    ensures var (w', ok) := KeyStep(Forever(c), None, StateOf(ws, e.key, None), e);
            Step(c, st, e).1 == ok && Simulates(c, Step(c, st, e).0, ws[e.key := w'], e.now)
  {
    var w := StateOf(ws, e.key, None);
    var w' := KeyStep(Forever(c), None, w, e).0;
    var st' := Step(c, st, e).0;
    HousekeepingSimulates(c, st, ws, clock, e.now);
    var st1 := Housekeeping(st, e.now);
    assert SameWindow(c, st1, e.key, w, e.now);
    assert SameWindow(c, st, e.key, w, clock);
    var ws' := ws[e.key := w'];
    forall key ensures SameWindow(c, st', key, StateOf(ws', key, None), e.now) {
      assert SameWindow(c, st1, key, StateOf(ws, key, None), e.now);
      assert SameWindow(c, st, key, StateOf(ws, key, None), clock);
    }
  }

  lemma {:induction false} RunSimulates(c: Config, st: State, ws: map<string, Option<Window>>, clock: int,
                                        events: seq<Event>)
    requires GoodConfig(c) && c.windowSize <= DAY && Simulates(c, st, ws, clock) && Timed(events, clock)
    ensures Run(c, st, events) == AllKeysRun(Forever(c), None, ws, events)
    decreases |events|
  {
    if events != [] {
      var e := events[0];
      TimedTail(events, clock);
      StepSimulates(c, st, ws, clock, e);
      var (w', ok) := KeyStep(Forever(c), None, StateOf(ws, e.key, None), e);
      hide Simulates, Step;
      RunSimulates(c, Step(c, st, e).0, ws[e.key := w'], e.now, events[1..]);
    }
  }

  /** Cleanup is invisible and keys are independent: in any interleaving, a key is answered as if it were alone and
      never cleaned up. */
  lemma KeyAlone(c: Config, start: int, events: seq<Event>, key: string)
    requires GoodConfig(c) && c.windowSize <= DAY && Timed(events, start)
    ensures AnswersOf(events, Run(c, State(map[], start), events), key) ==
            KeyRun(Forever(c), None, None, EventsOf(events, key))
  {
    RunSimulates(c, State(map[], start), map[], start, events);
    KeysIndependent(Forever(c), None, map[], events, key);
  }

  /** The bound on the window is needed: a longer window is forgotten while it is still open. */
  lemma LongWindowForgets(limit: nat, windowSize: int)
    requires limit >= 1 && windowSize > DAY
    ensures var c := Config(limit, windowSize);
            var events := [Call("k", limit, 0), Call("k", 1, DAY + 1)];
            && Run(c, State(map[], 0), events) == [true, true]
            && KeyRun(Forever(c), None, None, events) == [true, false]
  {
    var c := Config(limit, windowSize);
    var e0, e1 := Call("k", limit, 0), Call("k", 1, DAY + 1);
    assert [e0, e1][1..] == [e1] && [e1][1..] == [];
    var st := AllowStep(c, State(map[], 0), "k", limit, 0).0;
    assert st.windows["k"] == WindowData(limit, windowSize, 0);
    assert "k" !in Housekeeping(st, DAY + 1).windows;
    assert KeyAllow(c, None, limit, 0) == (Some(Window(limit, windowSize)), true);
  }

  /** Two calls: the second is granted if and only if both fit the limit, or it does and the window that the first
      opened is over. */
  lemma SecondCallGrantedIff(c: Config, key: string, m: int, n: int, now: int, later: int)
    requires GoodConfig(c) && 1 <= m <= c.limit && 1 <= n && now <= later
    ensures KeyRun(Forever(c), None, None, [Call(key, m, now), Call(key, n, later)]) ==
            [true, n <= c.limit && (m + n <= c.limit || later > now + c.windowSize)]
  {
    TwoAnswers(Forever(c), None, Call(key, m, now), Call(key, n, later));
  }

  /** A positive call more than an hour after the last cleanup drops exactly the other keys that were not asked about
      for a day; one before drops none. */
  lemma IdleKeysDropped(c: Config, st: State, key: string, n: int, now: int, other: string)
    requires n > 0 && other != key
    ensures var st' := AllowStep(c, st, key, n, now).0;
            && (other in st'.windows <==>
                && other in st.windows
                && (now - st.lastCleanup > 3_600_000_000_000 ==>
                    st.windows[other].lastAccess >= now - 86_400_000_000_000))
            && (other in st'.windows ==> st'.windows[other] == st.windows[other])
            && st'.lastCleanup == if now - st.lastCleanup > 3_600_000_000_000 then now else st.lastCleanup
  {
  }

  // ----- Bounds over whole runs -----

  /** The grants of one key and its current window: what is granted since the window opened is its count, and the window
      before it and any interval of one window length hold no more than the bounds. */
  ghost predicate Bounded(c: Config, log: seq<Grant>, w: Option<Window>, clock: int) {
    && Until(log, clock)
    && (w.None? ==> log == [])
    && (w.Some? ==>
          var openedAt := w.value.end - c.windowSize;
          && openedAt <= clock && 0 <= w.value.count <= c.limit && Until(log, w.value.end)
          && Total(log, openedAt, w.value.end) == w.value.count
          && Total(log, openedAt - c.windowSize, openedAt - 1) <= c.limit)
    && AtMostTwice(c, log)
  }

  /** No interval as long as a window contains more than twice the limit. */
  ghost predicate AtMostTwice(c: Config, log: seq<Grant>) {
    forall lo, hi :: hi <= lo + c.windowSize ==> Total(log, lo, hi) <= 2 * c.limit
  }

  /** Opening a window at `now`, if the current one is closed, keeps the bounds. */
  lemma OpenBounded(c: Config, log: seq<Grant>, w: Option<Window>, clock: int, now: int)
    requires GoodConfig(c) && Bounded(c, log, w, clock) && clock <= now
    ensures Bounded(c, log, Some(Current(c, w, now)), now)
    ensures now <= Current(c, w, now).end
  {
    if w.None? {
    } else if now > w.value.end {
      var openedAt := w.value.end - c.windowSize;
      TotalUntil(log, w.value.end, now, now + c.windowSize);
      TotalUntil(log, w.value.end, now - c.windowSize, now - 1);
      TotalWithin(log, now - c.windowSize, now - 1, openedAt, now - 1);
      TotalUntil(log, w.value.end, openedAt, now - 1);
    }
  }

  /** A grant in an open window keeps the bounds. */
  lemma GrantBounded(c: Config, log: seq<Grant>, w: Window, n: nat, now: int)
    requires GoodConfig(c) && Bounded(c, log, Some(w), now) && now <= w.end && n > 0 && w.count + n <= c.limit
    ensures Bounded(c, log + [Grant(now, n)], Some(Window(w.count + n, w.end)), now)
  {
    var g, openedAt := Grant(now, n), w.end - c.windowSize;
    var log' := log + [g];
    TotalAppend(log, g, openedAt, w.end);
    TotalAppend(log, g, openedAt - c.windowSize, openedAt - 1);
    forall lo, hi | hi <= lo + c.windowSize ensures Total(log', lo, hi) <= 2 * c.limit {
      TotalAppend(log, g, lo, hi);
      if lo <= now <= hi {
        // everything counted lies in the window or in one window length before it
        TotalWithin(log, lo, hi, openedAt - c.windowSize, w.end + c.windowSize);
        TotalSplit(log, openedAt - c.windowSize, openedAt - 1, w.end + c.windowSize);
        TotalUntil(log, w.end, openedAt, w.end + c.windowSize);
      }
    }
  }

  lemma CallBounded(c: Config, log: seq<Grant>, w: Option<Window>, clock: int, n: int, now: int)
    requires GoodConfig(c) && Bounded(c, log, w, clock) && clock <= now
    ensures var (w', ok) := KeyAllow(c, w, n, now); Bounded(c, Extended(log, n, now, ok), w', now)
  {
    if n > 0 {
      var cur := Current(c, w, now);
      OpenBounded(c, log, w, clock, now);
      if cur.count + n <= c.limit {
        GrantBounded(c, log, cur, n, now);
      }
    }
  }

  lemma {:induction false} KeyRunBounded(c: Config, log: seq<Grant>, w: Option<Window>, clock: int, events: seq<Event>)
    requires GoodConfig(c) && Bounded(c, log, w, clock) && Timed(events, clock) && NoResets(events)
    ensures AtMostTwice(c, log + GrantsOf(events, KeyRun(Forever(c), None, w, events)))
    decreases |events|
  {
    if events == [] {
      assert log + [] == log;
    } else {
      var e := events[0];
      assert e in events;
      TimedTail(events, clock);
      CallBounded(c, log, w, clock, e.n, e.now);
      var (w', ok) := KeyAllow(c, w, e.n, e.now);
      hide Bounded, KeyAllow;
      KeyRunBounded(c, Extended(log, e.n, e.now, ok), w', e.now, events[1..]);
      GrantsCons(log, events, KeyRun(Forever(c), None, w, events));
      assert KeyRun(Forever(c), None, w, events)[1..] == KeyRun(Forever(c), None, w', events[1..]);
    }
  }

  /** Fixed-window bound over whole runs: whatever the other keys do, a closed interval of one window length contains at
      most twice the limit of units granted to a key that is not reset. */
  lemma FixedWindowSafety(c: Config, start: int, events: seq<Event>, key: string, a: int)
    requires GoodConfig(c) && c.windowSize <= DAY && Timed(events, start) && NoResets(EventsOf(events, key))
    ensures Total(GrantsOf(EventsOf(events, key), AnswersOf(events, Run(c, State(map[], start), events), key)),
                  a, a + c.windowSize) <= 2 * c.limit
  {
    KeyAlone(c, start, events, key);
    EventsOfTimed(events, key, start);
    var mine := EventsOf(events, key);
    assert Bounded(c, [], None, start);
    KeyRunBounded(c, [], None, start, mine);
    var log := GrantsOf(mine, KeyRun(Forever(c), None, None, mine));
    assert [] + log == log;
  }

  /** The bound is reached: the limit at the end of one window and again at the start of the next. A refused call is
      enough to open the first window. */
  lemma TwiceTheLimit(c: Config)
    requires GoodConfig(c)
    ensures var w, l := c.windowSize, c.limit;
            var events := [Call("k", l + 1, 0), Call("k", l, w), Call("k", l, w + 1)];
            && KeyRun(Forever(c), None, None, events) == [false, true, true]
            && Total(GrantsOf(events, [false, true, true]), w, w + w) == 2 * l
  {
    var w, l := c.windowSize, c.limit;
    var e0, e1, e2 := Call("k", l + 1, 0), Call("k", l, w), Call("k", l, w + 1);
    var full, empty := Some(Window(l, w)), Some(Window(0, w));
    assert KeyAllow(c, None, l + 1, 0) == (empty, false);
    assert KeyAllow(c, empty, l, w) == (full, true);
    assert KeyAllow(c, full, l, w + 1).1;
    hide KeyAllow, Total, GrantsOf;
    assert KeyRun(Forever(c), None, None, [e0, e1, e2]) == [false, true, true] by {
      KeyRunCons(Forever(c), None, full, e2, []);
      KeyRunCons(Forever(c), None, empty, e1, [e2]);
      KeyRunCons(Forever(c), None, None, e0, [e1, e2]);
      assert [e2] == [e2] + [] && [e1, e2] == [e1] + [e2] && [e0, e1, e2] == [e0] + [e1, e2];
    }
    TwoGrants(e0, e1, e2);
    TwoTotal(w, l, w + 1, l, w, w + w);
  }

  lemma TwoTotal(t1: int, n1: nat, t2: int, n2: nat, lo: int, hi: int)
    requires lo <= t1 <= hi && lo <= t2 <= hi
    ensures Total([Grant(t1, n1)] + [Grant(t2, n2)], lo, hi) == n1 + n2
  {
    assert Total([], lo, hi) == 0;
    hide Total;
    TotalAppend([], Grant(t1, n1), lo, hi);
    TotalAppend([Grant(t1, n1)], Grant(t2, n2), lo, hi);
    assert [] + [Grant(t1, n1)] == [Grant(t1, n1)];
  }

  lemma TwoGrants(e0: Event, e1: Event, e2: Event)
    requires e1.Call? && e2.Call? && e1.n > 0 && e2.n > 0
    ensures GrantsOf([e0, e1, e2], [false, true, true]) == [Grant(e1.now, e1.n)] + [Grant(e2.now, e2.n)]
  {
    assert [e0, e1, e2][1..] == [e1, e2] && [e1, e2][1..] == [e2] && [e2][1..] == [];
    assert [false, true, true][1..] == [true, true] && [true, true][1..] == [true] && [true][1..] == [];
    assert GrantsOf([e2], [true]) == [Grant(e2.now, e2.n)];
    assert GrantsOf([e1, e2], [true, true]) == [Grant(e1.now, e1.n)] + [Grant(e2.now, e2.n)];
  }

  /** In every reachable state a call is granted exactly when it asks for nothing or for no more than what remains. */
  lemma GrantedIffRemaining(c: Config, st: State, ws: map<string, Option<Window>>, clock: int, key: string, n: int,
                            now: int)
    requires GoodConfig(c) && c.windowSize <= DAY && Simulates(c, st, ws, clock) && clock <= now
    ensures AllowStep(c, st, key, n, now).1 <==> n <= 0 || n <= RemainingAt(c, st, key, now)
  {
    StepSimulates(c, st, ws, clock, Call(key, n, now));
    assert SameWindow(c, st, key, StateOf(ws, key, None), clock);
  }

  // ----- The limiter -----

  class FixedWindow {
    const limit: int
    const windowSize: int
    var windows: map<string, WindowData>
    var lastCleanupTime: int

    function Cfg(): Config {
      Config(limit, windowSize)
    }

    function Abs(): State
      reads this
    {
      State(windows, lastCleanupTime)
    }

    constructor (limit: int, windowSize: int, now: int)
      ensures GoodConfig(Cfg()) && Abs() == State(map[], now)
      ensures this.limit == (if limit < 1 then 1 else limit)
      ensures this.windowSize == if windowSize < SECOND then SECOND else windowSize
    {
      this.limit := if limit < 1 then 1 else limit;
      this.windowSize := if windowSize < SECOND then SECOND else windowSize;
      windows := map[];
      lastCleanupTime := now;
    }

    method AllowN(key: string, n: int, now: int) returns (ok: bool)
      modifies this
      ensures (Abs(), ok) == AllowStep(Cfg(), old(Abs()), key, n, now)
    {
      if n <= 0 {
        return true;
      }
      if now - lastCleanupTime > HOUR {
        Cleanup(now);
        lastCleanupTime := now;
      }
      assert Abs() == Housekeeping(old(Abs()), now);
      var wd := if key in windows then windows[key] else WindowData(0, now + windowSize, now);
      if now > wd.windowEnd {
        wd := wd.(count := 0, windowEnd := now + windowSize);
      }
      wd := wd.(lastAccess := now);
      windows := windows[key := wd];
      if wd.count >= limit {
        return false;
      }
      if wd.count + n > limit {
        return false;
      }
      ghost var others := windows;
      windows := windows[key := wd.(count := wd.count + n)];
      assert windows == Housekeeping(old(Abs()), now).windows[key := others[key].(count := wd.count + n)];
      return true;
    }

    method Cleanup(now: int)
      modifies this`windows
      ensures windows == Cleaned(old(windows), now)
    {
      var keys := windows.Keys;
      while keys != {}
        invariant keys <= old(windows).Keys
        invariant windows == map k | k in old(windows) && (k in keys || old(windows)[k].lastAccess >= now - DAY) ::
                  old(windows)[k]
        decreases |keys|
      {
        var key :| key in keys;
        keys := keys - {key};
        if windows[key].lastAccess < now - DAY {
          windows := windows - {key};
        }
      }
    }

    method Remaining(key: string, now: int) returns (r: int)
      ensures r == RemainingAt(Cfg(), Abs(), key, now)
    {
      if key !in windows {
        return limit;
      }
      if now > windows[key].windowEnd {
        return limit;
      }
      return limit - windows[key].count;
    }

    method Reset(key: string)
      modifies this
      ensures Abs() == Step(Cfg(), old(Abs()), Event.Reset(key, 0)).0
    {
      windows := windows - {key};
    }
  }
}
