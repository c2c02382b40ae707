/** The in-memory sliding-window limiter. */
module SlidingWindowLimiter {
  import opened Text
  import opened Runs

  datatype Config = Config(limit: int, windowSize: int)

  ghost predicate GoodConfig(c: Config) {
    c.limit >= 1 && c.windowSize >= SECOND
  }

  datatype SlidingRequest = SlidingRequest(timestamps: seq<int>, lastRead: int)

  datatype State = State(requests: map<string, SlidingRequest>, lastCleanup: int)

  // ----- One call -----

  /** The timestamps after `cutoff`, in order. */
  function After(ts: seq<int>, cutoff: int): (r: seq<int>)
    ensures |r| <= |ts|
  {
    if ts == [] then []
    else After(ts[..|ts| - 1], cutoff) + (if ts[|ts| - 1] > cutoff then [ts[|ts| - 1]] else [])
  }

  function Cleaned(requests: map<string, SlidingRequest>, now: int): map<string, SlidingRequest> {
    map k | k in requests && requests[k].lastRead >= now - DAY :: requests[k]
  }

  function Housekeeping(st: State, now: int): State {
    if now - st.lastCleanup > HOUR then State(Cleaned(st.requests, now), now) else st
  }

  function Copies(t: int, n: nat): (r: seq<int>)
    ensures |r| == n
  {
    seq(n, _ => t)
  }

  function AllowStep(c: Config, st: State, key: string, n: int, now: int): (State, bool) {
    if n <= 0 then (st, true)
    else
      var st1 := Housekeeping(st, now);
      var req := if key in st1.requests then st1.requests[key] else SlidingRequest([], now);
      var valid := After(req.timestamps, now - c.windowSize);
      var ok := |valid| < c.limit && |valid| + n <= c.limit;
      (st1.(requests := st1.requests[key := SlidingRequest(if ok then valid + Copies(now, n) else valid, now)]), ok)
  }

  function ResetStep(st: State, key: string): State {
    st.(requests := st.requests - {key})
  }

  function RemainingAt(c: Config, st: State, key: string, now: int): int {
    if key in st.requests then c.limit - |After(st.requests[key].timestamps, now - c.windowSize)| else c.limit
  }

  function Step(c: Config, st: State, e: Event): (State, bool) {
    match e
    case Call(key, n, now) => AllowStep(c, st, key, n, now)
    case Reset(key, _) => (ResetStep(st, key), true)
  }

  function Run(c: Config, st: State, events: seq<Event>): (r: seq<bool>)
    ensures |r| == |events|
    decreases |events|
  {
    if events == [] then []
    else
      var (st', ok) := Step(c, st, events[0]);
      [ok] + Run(c, st', events[1..])
  }

  // ----- The complete history -----

  /** The limiter that never forgets: a call is granted when the units granted in the last window leave room. */
  function HistoryAllow(c: Config, log: seq<Grant>, n: int, now: int): (seq<Grant>, bool) {
    if n <= 0 then (log, true)
    else
      var ok := Total(log, now - c.windowSize + 1, now) + n <= c.limit;
      (Extended(log, n, now, ok), ok)
  }

  function CountFrom(ts: seq<int>, lo: int): nat {
    if ts == [] then 0 else CountFrom(ts[..|ts| - 1], lo) + (if ts[|ts| - 1] >= lo then 1 else 0)
  }

  lemma {:induction false} AfterCounts(ts: seq<int>, cutoff: int, lo: int)
    requires lo > cutoff
    ensures CountFrom(After(ts, cutoff), lo) == CountFrom(ts, lo)
    ensures |After(ts, cutoff)| == CountFrom(ts, cutoff + 1)
    ensures forall t :: t in After(ts, cutoff) ==> t in ts
  {
    if ts != [] {
      var rest, last := After(ts[..|ts| - 1], cutoff), ts[|ts| - 1];
      AfterCounts(ts[..|ts| - 1], cutoff, lo);
      assert (rest + [last])[..|rest|] == rest && rest + [] == rest;
    }
  }

  lemma {:induction false} CountFromNone(ts: seq<int>, lo: int)
    requires forall i :: 0 <= i < |ts| ==> ts[i] < lo
    ensures CountFrom(ts, lo) == 0
  {
    if ts != [] {
      CountFromNone(ts[..|ts| - 1], lo);
    }
  }

  lemma {:induction false} CountFromCopies(ts: seq<int>, now: int, n: nat, lo: int)
    ensures CountFrom(ts + Copies(now, n), lo) == CountFrom(ts, lo) + (if now >= lo then n else 0)
  {
    if n == 0 {
      assert ts + Copies(now, 0) == ts;
    } else {
      CountFromCopies(ts, now, n - 1, lo);
      assert (ts + Copies(now, n))[..|ts| + n - 1] == ts + Copies(now, n - 1);
      assert (ts + Copies(now, n))[|ts| + n - 1] == now;
    }
  }

  /** A stored request stands for a complete history: it counts the same from any time its next reading can ask
      about. */
  ghost predicate Stands(c: Config, req: SlidingRequest, log: seq<Grant>, clock: int) {
    && req.lastRead <= clock && (forall i :: 0 <= i < |req.timestamps| ==> req.timestamps[i] <= req.lastRead)
    && forall lo :: lo > req.lastRead - c.windowSize ==> CountFrom(req.timestamps, lo) == Total(log, lo, clock)
  }

  /** An absent request stands for a history with nothing in the last window. */
  ghost predicate Expired(c: Config, log: seq<Grant>, clock: int) {
    forall lo :: lo > clock - c.windowSize ==> Total(log, lo, clock) == 0
  }

  ghost predicate Simulates(c: Config, st: State, logs: map<string, seq<Grant>>, clock: int) {
    forall key ::
      && Until(StateOf(logs, key, []), clock)
      && (key in st.requests ==> Stands(c, st.requests[key], StateOf(logs, key, []), clock))
      && (key !in st.requests ==> Expired(c, StateOf(logs, key, []), clock))
  }

  /** Time passes: nothing changes but what counts as recent. */
  lemma StandsLater(c: Config, req: SlidingRequest, log: seq<Grant>, clock: int, now: int)
    requires Until(log, clock) && clock <= now
    ensures Until(log, now)
    ensures Stands(c, req, log, clock) ==> Stands(c, req, log, now)
    ensures Expired(c, log, clock) ==> Expired(c, log, now)
  {
    forall lo ensures Total(log, lo, now) == Total(log, lo, clock) {
      TotalUntil(log, clock, lo, now);
    }
  }

  /** A request that cleanup drops has nothing left in the window. */
  lemma DroppedIsExpired(c: Config, req: SlidingRequest, log: seq<Grant>, now: int)
    requires c.windowSize <= DAY + 1 && Stands(c, req, log, now) && req.lastRead < now - DAY
    ensures Expired(c, log, now)
  {
    forall lo | lo > now - c.windowSize ensures Total(log, lo, now) == 0 {
      CountFromNone(req.timestamps, lo);
      assert CountFrom(req.timestamps, lo) == Total(log, lo, now);
    }
  }

  lemma HousekeepingSimulates(c: Config, st: State, logs: map<string, seq<Grant>>, clock: int, now: int)
    requires c.windowSize <= DAY + 1 && Simulates(c, st, logs, clock) && clock <= now
    ensures Simulates(c, Housekeeping(st, now), logs, now)
  {
    var st' := Housekeeping(st, now);
    forall key
      ensures Until(StateOf(logs, key, []), now)
      ensures key in st'.requests ==> Stands(c, st'.requests[key], StateOf(logs, key, []), now)
      ensures key !in st'.requests ==> Expired(c, StateOf(logs, key, []), now)
    {
      var log := StateOf(logs, key, []);
      if key in st.requests {
        StandsLater(c, st.requests[key], log, clock, now);
        if key !in st'.requests {
          DroppedIsExpired(c, st.requests[key], log, now);
        }
      } else {
        StandsLater(c, SlidingRequest([], 0), log, clock, now);
      }
    }
  }

  /** What the pruned log counts is what the complete history counts, and the updated request stands for the updated
      history. */
  lemma CallStands(c: Config, req: SlidingRequest, log: seq<Grant>, n: int, now: int)
    requires GoodConfig(c) && n > 0 && Until(log, now)
    requires Stands(c, req, log, now) || (req == SlidingRequest([], now) && Expired(c, log, now))
    ensures var valid := After(req.timestamps, now - c.windowSize);
            var ok := |valid| < c.limit && |valid| + n <= c.limit;
            && |valid| == Total(log, now - c.windowSize + 1, now)
            && HistoryAllow(c, log, n, now) == (Extended(log, n, now, ok), ok)
            && Until(Extended(log, n, now, ok), now)
            && Stands(c, SlidingRequest(if ok then valid + Copies(now, n) else valid, now), Extended(log, n, now, ok),
                      now)
  {
    hide After, CountFrom, Total;
    CountsAgree(c, req, log, now, now - c.windowSize + 1);
    AfterCounts(req.timestamps, now - c.windowSize, now - c.windowSize + 1);
    var valid := After(req.timestamps, now - c.windowSize);
    var ok := |valid| < c.limit && |valid| + n <= c.limit;
    CallUpdates(c, req, log, n, now, ok);
    hide Stands, Expired, Copies;
  }

  lemma CallUpdates(c: Config, req: SlidingRequest, log: seq<Grant>, n: int, now: int, ok: bool)
    requires n > 0
    requires Stands(c, req, log, now) || (req == SlidingRequest([], now) && Expired(c, log, now))
    ensures var valid := After(req.timestamps, now - c.windowSize);
            Stands(c, SlidingRequest(if ok then valid + Copies(now, n) else valid, now), Extended(log, n, now, ok), now)
  {
    hide After, CountFrom, Total, Expired, Copies, Extended;
    var valid := After(req.timestamps, now - c.windowSize);
    var ts := if ok then valid + Copies(now, n) else valid;
    ValidBound(c, req, log, now);
    CopiesAre(now, n);
    forall lo | lo > now - c.windowSize ensures CountFrom(ts, lo) == Total(Extended(log, n, now, ok), lo, now) {
      CallCounts(c, req, log, n, now, ok, lo);
    }
    assert forall i :: 0 <= i < |ts| ==> ts[i] <= now;
  }

  lemma CopiesAre(t: int, n: nat)
    ensures forall i :: 0 <= i < n ==> Copies(t, n)[i] == t
  {
  }

  lemma ValidBound(c: Config, req: SlidingRequest, log: seq<Grant>, now: int)
    requires Stands(c, req, log, now) || req == SlidingRequest([], now)
    ensures var valid := After(req.timestamps, now - c.windowSize);
            forall i :: 0 <= i < |valid| ==> valid[i] <= now
  {
    var valid := After(req.timestamps, now - c.windowSize);
    AfterCounts(req.timestamps, now - c.windowSize, now - c.windowSize + 1);
    forall i | 0 <= i < |valid| ensures valid[i] <= now {
      assert valid[i] in valid;
    }
  }

  lemma CallCounts(c: Config, req: SlidingRequest, log: seq<Grant>, n: int, now: int, ok: bool, lo: int)
    requires n > 0 && lo > now - c.windowSize
    requires Stands(c, req, log, now) || (req == SlidingRequest([], now) && Expired(c, log, now))
    ensures var valid := After(req.timestamps, now - c.windowSize);
            CountFrom(if ok then valid + Copies(now, n) else valid, lo) == Total(Extended(log, n, now, ok), lo, now)
  {
    hide After, CountFrom, Total, Expired, Copies, Stands;
    var valid := After(req.timestamps, now - c.windowSize);
    CountsAgree(c, req, log, now, lo);
    AfterCounts(req.timestamps, now - c.windowSize, lo);
    CountFromCopies(valid, now, n, lo);
    TotalAppend(log, Grant(now, n), lo, now);
  }

  lemma CountsAgree(c: Config, req: SlidingRequest, log: seq<Grant>, now: int, lo: int)
    requires Stands(c, req, log, now) || (req == SlidingRequest([], now) && Expired(c, log, now))
    requires lo > now - c.windowSize
    ensures CountFrom(req.timestamps, lo) == Total(log, lo, now)
  {
  }

  /** One step of the limiter answers as the complete history does, and keeps standing for it. */
  lemma StepSimulates(c: Config, st: State, logs: map<string, seq<Grant>>, clock: int, e: Event)
    requires GoodConfig(c) && c.windowSize <= DAY + 1 && Simulates(c, st, logs, clock) && clock <= e.now
    ensures var allow: Allow<seq<Grant>> := (log, n, now) => HistoryAllow(c, log, n, now);
            var (log', ok) := KeyStep(allow, [], StateOf(logs, e.key, []), e);
            Step(c, st, e).1 == ok && Simulates(c, Step(c, st, e).0, logs[e.key := log'], e.now)
  {
    hide Simulates, Stands, Expired, Until;
    match e {
      case Call(key, n, now) =>
        if n > 0 {
          CallSimulates(c, st, logs, clock, key, n, now);
        } else {
          WaitSimulates(c, st, logs, clock, now);
          SameLogs(c, st, logs, key, now);
        }
      case Reset(key, now) =>
        WaitSimulates(c, st, logs, clock, now);
        ResetSimulates(c, st, logs, key, now);
    }
  }

  lemma SameLogs(c: Config, st: State, logs: map<string, seq<Grant>>, key: string, now: int)
    requires Simulates(c, st, logs, now)
    ensures Simulates(c, st, logs[key := StateOf(logs, key, [])], now)
  {
    OthersUnchanged(c, st, st, logs, logs[key := StateOf(logs, key, [])], key, now);
  }

  lemma ResetSimulates(c: Config, st: State, logs: map<string, seq<Grant>>, key: string, now: int)
    requires Simulates(c, st, logs, now)
    ensures Simulates(c, ResetStep(st, key), logs[key := []], now)
  {
    OthersUnchanged(c, st, ResetStep(st, key), logs, logs[key := []], key, now);
  }

  lemma CallSimulates(c: Config, st: State, logs: map<string, seq<Grant>>, clock: int, key: string, n: int, now: int)
    requires GoodConfig(c) && c.windowSize <= DAY + 1 && Simulates(c, st, logs, clock) && clock <= now && n > 0
    ensures var (log', ok) := HistoryAllow(c, StateOf(logs, key, []), n, now);
            var (st', ok') := AllowStep(c, st, key, n, now);
            ok' == ok && Simulates(c, st', logs[key := log'], now)
  {
    hide Stands, Expired, Until, Housekeeping, After, Total, HistoryAllow, Copies;
    HousekeepingSimulates(c, st, logs, clock, now);
    var st1 := Housekeeping(st, now);
    var req := if key in st1.requests then st1.requests[key] else SlidingRequest([], now);
    var log := StateOf(logs, key, []);
    assert Until(log, now);
    CallStands(c, req, log, n, now);
    hide Simulates;
    OthersUnchanged(c, st1, AllowStep(c, st, key, n, now).0, logs, logs[key := HistoryAllow(c, log, n, now).0], key,
                    now);
  }

  lemma WaitSimulates(c: Config, st: State, logs: map<string, seq<Grant>>, clock: int, now: int)
    requires Simulates(c, st, logs, clock) && clock <= now
    ensures Simulates(c, st, logs, now)
  {
    forall key
      ensures Until(StateOf(logs, key, []), now)
      ensures key in st.requests ==> Stands(c, st.requests[key], StateOf(logs, key, []), now)
      ensures key !in st.requests ==> Expired(c, StateOf(logs, key, []), now)
    {
      StandsLater(c, if key in st.requests then st.requests[key] else SlidingRequest([], 0), StateOf(logs, key, []),
                  clock, now);
    }
  }

  lemma OthersUnchanged(c: Config, st: State, st': State, logs: map<string, seq<Grant>>, logs': map<string, seq<Grant>>,
                        key: string, now: int)
    requires Simulates(c, st, logs, now)
    requires forall k :: k != key ==>
               (k in st'.requests <==> k in st.requests) && StateOf(logs', k, []) == StateOf(logs, k, [])
    requires forall k :: k != key && k in st'.requests ==> st'.requests[k] == st.requests[k]
    requires Until(StateOf(logs', key, []), now)
    requires key in st'.requests ==> Stands(c, st'.requests[key], StateOf(logs', key, []), now)
    requires key !in st'.requests ==> Expired(c, StateOf(logs', key, []), now)
    ensures Simulates(c, st', logs', now)
  {
    hide Stands, Expired, Until, StateOf;
  }

  /** The pruned and cleaned-up limiter answers every call, on every key, as the complete history does. */
  lemma {:induction false} RunSimulates(c: Config, st: State, logs: map<string, seq<Grant>>, clock: int,
                                        events: seq<Event>)
    requires GoodConfig(c) && c.windowSize <= DAY + 1 && Simulates(c, st, logs, clock) && Timed(events, clock)
    ensures Run(c, st, events) == AllKeysRun((log, n, now) => HistoryAllow(c, log, n, now), [], logs, events)
    decreases |events|
  {
    if events != [] {
      var allow: Allow<seq<Grant>> := (log, n, now) => HistoryAllow(c, log, n, now);
      var e := events[0];
      TimedTail(events, clock);
      StepSimulates(c, st, logs, clock, e);
      var (log', ok) := KeyStep(allow, [], StateOf(logs, e.key, []), e);
      hide Simulates, Step;
      RunSimulates(c, Step(c, st, e).0, logs[e.key := log'], e.now, events[1..]);
    }
  }

  /** Refinement, invisibility of cleanup and independence of keys: from the start, in any interleaving, a key is
      answered by its own complete history. */
  lemma RefinesHistory(c: Config, start: int, events: seq<Event>, key: string)
    requires GoodConfig(c) && c.windowSize <= DAY + 1 && Timed(events, start)
    ensures AnswersOf(events, Run(c, State(map[], start), events), key) ==
            KeyRun((log, n, now) => HistoryAllow(c, log, n, now), [], [], EventsOf(events, key))
  {
    assert Simulates(c, State(map[], start), map[], start) by {
      assert forall key: string :: StateOf<seq<Grant>>(map[], key, []) == [];
    }
    RunSimulates(c, State(map[], start), map[], start, events);
    KeysIndependent((log, n, now) => HistoryAllow(c, log, n, now), [], map[], events, key);
  }

  /** Two calls: the second is granted if and only if both fit the limit, or it does and the first is a whole window
      old. */
  lemma SecondCallGrantedIff(c: Config, key: string, m: int, n: int, now: int, later: int)
    requires GoodConfig(c) && 1 <= m <= c.limit && 1 <= n && now <= later
    ensures KeyRun((log, n, now) => HistoryAllow(c, log, n, now), [], [], [Call(key, m, now), Call(key, n, later)]) ==
            [true, n <= c.limit && (m + n <= c.limit || later >= now + c.windowSize)]
  {
    var a, b, first := Call(key, m, now), Call(key, n, later), Grant(now, m);
    var none: seq<Grant> := [];
    assert none + [first] == [first];
    TotalAppend(none, first, later - c.windowSize + 1, later);
    assert Total(none, now - c.windowSize + 1, now) == 0 && Total(none, later - c.windowSize + 1, later) == 0;
    TwoAnswers((log, n, now) => HistoryAllow(c, log, n, now), [], a, b);
  }

  /** A positive call more than an hour after the last cleanup drops exactly the other keys that were not asked about
      for a day; one before drops none. */
  lemma IdleKeysDropped(c: Config, st: State, key: string, n: int, now: int, other: string)
    requires n > 0 && other != key
    ensures var st' := AllowStep(c, st, key, n, now).0;
            && (other in st'.requests <==>
                && other in st.requests
                && (now - st.lastCleanup > 3_600_000_000_000 ==>
                    st.requests[other].lastRead >= now - 86_400_000_000_000))
            && (other in st'.requests ==> st'.requests[other] == st.requests[other])
            && st'.lastCleanup == if now - st.lastCleanup > 3_600_000_000_000 then now else st.lastCleanup
  {
  }

  // ----- Safety -----

  /** No interval of one window length contains more than `limit` granted units. */
  ghost predicate SafeLog(c: Config, log: seq<Grant>) {
    forall lo, hi :: hi < lo + c.windowSize ==> Total(log, lo, hi) <= c.limit
  }

  lemma HistorySafe(c: Config, log: seq<Grant>, clock: int, n: int, now: int)
    requires GoodConfig(c) && SafeLog(c, log) && Until(log, clock) && clock <= now
    ensures var log' := HistoryAllow(c, log, n, now).0; SafeLog(c, log') && Until(log', now)
  {
    var (log', ok) := HistoryAllow(c, log, n, now);
    forall lo, hi | hi < lo + c.windowSize ensures Total(log', lo, hi) <= c.limit {
      TotalAppend(log, Grant(now, if n > 0 then n else 0), lo, hi);
      if ok && n > 0 && lo <= now <= hi {
        TotalUntil(log, now, lo, hi);
        TotalWithin(log, lo, now, now - c.windowSize + 1, now);
      }
    }
  }

  lemma {:induction false} HistoryRunSafe(c: Config, log: seq<Grant>, clock: int, events: seq<Event>)
    requires GoodConfig(c) && SafeLog(c, log) && Until(log, clock) && Timed(events, clock) && NoResets(events)
    ensures SafeLog(c, log + GrantsOf(events, KeyRun((log, n, now) => HistoryAllow(c, log, n, now), [], log, events)))
    decreases |events|
  {
    if events == [] {
      assert log + [] == log;
    } else {
      var allow: Allow<seq<Grant>> := (log, n, now) => HistoryAllow(c, log, n, now);
      assert events[0] in events;
      TimedTail(events, clock);
      HistorySafe(c, log, clock, events[0].n, events[0].now);
      var (log', ok) := HistoryAllow(c, log, events[0].n, events[0].now);
      HistoryRunSafe(c, log', events[0].now, events[1..]);
      GrantsCons(log, events, KeyRun(allow, [], log, events));
      assert KeyRun(allow, [], log, events)[1..] == KeyRun(allow, [], log', events[1..]);
    }
  }

  /** Sliding-window safety over whole runs: whatever the other keys do, every interval (a, a + W] contains at most
      `limit` units granted to a key that is not reset. */
  lemma SlidingWindowSafety(c: Config, start: int, events: seq<Event>, key: string, a: int)
    requires GoodConfig(c) && c.windowSize <= DAY + 1 && Timed(events, start) && NoResets(EventsOf(events, key))
    ensures Total(GrantsOf(EventsOf(events, key), AnswersOf(events, Run(c, State(map[], start), events), key)),
                  a + 1, a + c.windowSize) <= c.limit
  {
    RefinesHistory(c, start, events, key);
    EventsOfTimed(events, key, start);
    assert SafeLog(c, []);
    var mine := EventsOf(events, key);
    HistoryRunSafe(c, [], start, mine);
    var answers := KeyRun((log, n, now) => HistoryAllow(c, log, n, now), [], [], mine);
    assert [] + GrantsOf(mine, answers) == GrantsOf(mine, answers);
  }

  /** The bound on the window is needed: with a longer one, a call can be granted that the history refuses. */
  lemma LongWindowForgets(limit: nat, windowSize: int)
    requires limit >= 1 && windowSize > DAY + 1
    ensures var c := Config(limit, windowSize);
            var events := [Call("k", limit, 0), Call("k", 1, DAY + 1)];
            && Run(c, State(map[], 0), events) == [true, true]
            && KeyRun((log, n, now) => HistoryAllow(c, log, n, now), [], [], events) == [true, false]
  {
    var c := Config(limit, windowSize);
    var e0, e1 := Call("k", limit, 0), Call("k", 1, DAY + 1);
    assert [e0, e1][1..] == [e1] && [e1][1..] == [];
    var log := [Grant(0, limit)];
    LimiterForgets(c, limit);
    HistoryRemembers(c, limit);
    hide AllowStep, HistoryAllow;
  }

  lemma LimiterForgets(c: Config, limit: nat)
    requires limit >= 1 && c.limit == limit
    ensures var (st, ok) := AllowStep(c, State(map[], 0), "k", limit, 0);
            ok && AllowStep(c, st, "k", 1, DAY + 1).1
  {
    var (st, ok) := AllowStep(c, State(map[], 0), "k", limit, 0);
    assert st.lastCleanup == 0 && "k" in st.requests && st.requests["k"].lastRead == 0;
    assert "k" !in Housekeeping(st, DAY + 1).requests;
  }

  lemma HistoryRemembers(c: Config, limit: nat)
    requires limit >= 1 && c.limit == limit && c.windowSize > DAY + 1
    ensures var (log, ok) := HistoryAllow(c, [], limit, 0);
            ok && !HistoryAllow(c, log, 1, DAY + 1).1
  {
    var log := [Grant(0, limit)];
    assert log[..0] == [] && [] + [Grant(0, limit)] == log;
    assert Total(log, DAY + 1 - c.windowSize + 1, DAY + 1) == limit;
  }

  /** In every reachable state, what remains is the limit less the units granted in the last window, and a call is
      granted exactly when it asks for nothing or for no more. */
  lemma GrantedIffRemaining(c: Config, st: State, logs: map<string, seq<Grant>>, clock: int, key: string, n: int,
                            now: int)
    requires GoodConfig(c) && c.windowSize <= DAY + 1 && Simulates(c, st, logs, clock) && clock <= now
    ensures RemainingAt(c, st, key, now) == c.limit - Total(StateOf(logs, key, []), now - c.windowSize + 1, now)
    ensures AllowStep(c, st, key, n, now).1 <==> n <= 0 || n <= RemainingAt(c, st, key, now)
  {
    WaitSimulates(c, st, logs, clock, now);
    if n <= 0 {
      assert AllowStep(c, st, key, n, now).1;
    } else {
      CallSimulates(c, st, logs, clock, key, n, now);
    }
    RemainingCounts(c, st, logs, key, now);
    hide AllowStep, RemainingAt, Simulates;
  }

  lemma RemainingCounts(c: Config, st: State, logs: map<string, seq<Grant>>, key: string, now: int)
    requires GoodConfig(c) && Simulates(c, st, logs, now)
    ensures RemainingAt(c, st, key, now) == c.limit - Total(StateOf(logs, key, []), now - c.windowSize + 1, now)
  {
    hide After, CountFrom;
    var log := StateOf(logs, key, []);
    if key in st.requests {
      var req := st.requests[key];
      assert Stands(c, req, log, now);
      AfterCounts(req.timestamps, now - c.windowSize, now - c.windowSize + 1);
      CountsAgree(c, req, log, now, now - c.windowSize + 1);
    } else {
      assert Expired(c, log, now);
      CountsAgree(c, SlidingRequest([], now), log, now, now - c.windowSize + 1);
      assert CountFrom([], now - c.windowSize + 1) == 0 by { CountFromNone([], now - c.windowSize + 1); }
    }
  }

  // ----- The limiter -----

  class SlidingWindow {
    const limit: int
    const windowSize: int
    var requests: map<string, SlidingRequest>
    var lastCleanupTime: int

    function Cfg(): Config {
      Config(limit, windowSize)
    }

    function Abs(): State
      reads this
    {
      State(requests, lastCleanupTime)
    }

    constructor (limit: int, windowSize: int, now: int)
      ensures GoodConfig(Cfg()) && Abs() == State(map[], now)
      ensures this.limit == (if limit < 1 then 1 else limit)
      ensures this.windowSize == if windowSize < SECOND then SECOND else windowSize
    {
      this.limit := if limit < 1 then 1 else limit;
      this.windowSize := if windowSize < SECOND then SECOND else windowSize;
      requests := map[];
      lastCleanupTime := now;
    }

    method AllowN(key: string, n: int, now: int) returns (ok: bool)
      modifies this
      ensures (Abs(), ok) == AllowStep(Cfg(), old(Abs()), key, n, now)
    {
      hide Cleaned, Copies;
      if n <= 0 {
        return true;
      }
      if now - lastCleanupTime > HOUR {
        Cleanup(now);
        lastCleanupTime := now;
      }
      assert Abs() == Housekeeping(old(Abs()), now);
      var req := if key in requests then requests[key] else SlidingRequest([], now);
      var cutoff := now - windowSize;
      var validTimestamps: seq<int> := [];
      for i := 0 to |req.timestamps|
        invariant validTimestamps == After(req.timestamps[..i], cutoff)
      {
        assert req.timestamps[..i + 1][..i] == req.timestamps[..i];
        if req.timestamps[i] > cutoff {
          validTimestamps := validTimestamps + [req.timestamps[i]];
        }
      }
      assert req.timestamps[..|req.timestamps|] == req.timestamps;
      assert validTimestamps == After(req.timestamps, now - windowSize);
      var timestamps := validTimestamps;
      if |timestamps| >= limit || |timestamps| + n > limit {
        requests := requests[key := SlidingRequest(timestamps, now)];
        return false;
      }
      timestamps := AppendCopies(timestamps, now, n);
      requests := requests[key := SlidingRequest(timestamps, now)];
      return true;
    }

    method AppendCopies(ts: seq<int>, now: int, n: nat) returns (r: seq<int>)
      ensures r == ts + Copies(now, n)
    {
      r := ts;
      for i := 0 to n
        invariant r == ts + Copies(now, i)
      {
        r := r + [now];
      }
    }

    method Cleanup(now: int)
      modifies this`requests
      ensures requests == Cleaned(old(requests), now)
    {
      var keys := requests.Keys;
      while keys != {}
        invariant keys <= old(requests).Keys
        invariant requests == map k | k in old(requests) && (k in keys || old(requests)[k].lastRead >= now - DAY) ::
                  old(requests)[k]
        decreases |keys|
      {
        var key :| key in keys;
        keys := keys - {key};
        if requests[key].lastRead < now - DAY {
          requests := requests - {key};
        }
      }
    }

    method Remaining(key: string, now: int) returns (r: int)
      ensures r == RemainingAt(Cfg(), Abs(), key, now)
    {
      if key !in requests {
        return limit;
      }
      var ts := requests[key].timestamps;
      var count := 0;
      for i := 0 to |ts|
        invariant count == |After(ts[..i], now - windowSize)|
      {
        assert ts[..i + 1][..i] == ts[..i];
        if ts[i] > now - windowSize {
          count := count + 1;
        }
      }
      assert ts[..|ts|] == ts;
      return limit - count;
    }

    method Reset(key: string)
      modifies this
      ensures Abs() == ResetStep(old(Abs()), key)
    {
      requests := requests - {key};
    }
  }
}
